/**
  The side effects the CI core asks for, as data: a plan is the sequence of
  commands a run issues when every command succeeds.
 */
module Commands {
  import opened Wrappers

  /** The git invocations the core issues; `Argv` gives the argument vector. */
  datatype GitOp =
    | Clone(url: string, dest: string)
    /** `clone --depth=1 --branch <branch>`. */
    | ShallowClone(branch: string, url: string, dest: string)
    | ListRemoteBranches
    | Checkout(branch: string)
    | RenameBranch(newName: string)
    | PushUpstream(branch: string)
    | DeleteRemoteBranch(branch: string)
    | PushBranch(branch: string)
    | PushCurrent
    | AddAll
    | Status
    | Commit(message: string)
    /** `config [--global] <key> <value>`. */
    | SetConfig(global: bool, key: string, value: string)
    | Pull
    /** `clone <url> -b <branch> <dest>`, full history. */
    | CloneBranch(url: string, branch: string, dest: string)
    /** `rev-parse --short HEAD`, whose output is captured. */
    | ShortHead

  /** The argument vector of a git invocation. */
  function Argv(op: GitOp): (argv: seq<string>)
    ensures |argv| >= 2 && argv[0] == "git"
  {
    ["git"] +
    match op
    case Clone(url, dest) => ["clone", url, dest]
    case ShallowClone(branch, url, dest) => ["clone", "--depth=1", "--branch", branch, url, dest]
    case ListRemoteBranches => ["branch", "-r"]
    case Checkout(branch) => ["checkout", branch]
    case RenameBranch(newName) => ["branch", "-m", newName]
    case PushUpstream(branch) => ["push", "origin", "-u", branch]
    case DeleteRemoteBranch(branch) => ["push", "origin", "--delete", branch]
    case PushBranch(branch) => ["push", "origin", branch]
    case PushCurrent => ["push"]
    case AddAll => ["add", "."]
    case Status => ["status", "--porcelain"]
    case Commit(message) => ["commit", "-m", message]
    case SetConfig(global, key, value) => ["config"] + (if global then ["--global"] else []) + [key, value]
    case Pull => ["pull"]
    case CloneBranch(url, branch, dest) => ["clone", url, "-b", branch, dest]
    case ShortHead => ["rev-parse", "--short", "HEAD"]
  }

  /** A git invocation that publishes to the remote. */
  predicate IsPush(op: GitOp) {
    op.PushUpstream? || op.DeleteRemoteBranch? || op.PushBranch? || op.PushCurrent?
  }

  datatype Command =
    /** A git invocation in working directory `cwd` (None: the tool's own). */
    | Git(op: GitOp, cwd: Option<string>)
    /** Any other subprocess, with its argument vector. */
    | Run(argv: seq<string>, cwd: Option<string>)
    /** A subprocess with extra environment variables. */
    | RunWithEnv(argv: seq<string>, cwd: Option<string>, env: map<string, string>)
    /** A subprocess that is fed `input` on its standard input. */
    | RunWithInput(argv: seq<string>, cwd: Option<string>, input: string)
    | WriteFile(path: string, content: string)
    | CopyFile(src: string, dst: string)
    | RemoveFile(path: string)
    /** Remove a directory with everything below it. */
    | RemoveTree(path: string)
    /** Create a directory and its missing parents. */
    | MakeDirs(path: string)
    /** An HTTP GET whose body is saved to `path`. */
    | Download(url: string, path: string)
    /** Unpack the (possibly split) `.tar.gz` archives found in `dir` into its
        parent directory. */
    | ExtractArchives(dir: string)
    /** The release notification for `tag`; its behaviour is not part of this
        model. */
    | Notify(tag: string)

  /** How far a run got: the commands issued, and the error that stopped it
      if one did. A run stops at its first error, after everything issued
      before it has taken effect. */
  datatype Outcome<E> = Outcome(issued: seq<Command>, failure: Option<E>)

  /** A git invocation inside `dir`. */
  function GitIn(op: GitOp, dir: string): Command {
    Git(op, Some(dir))
  }

  /** The plan neither commits nor publishes anything. */
  predicate Quiet(plan: seq<Command>) {
    forall c | c in plan :: !(c.Git? && (c.op.Commit? || IsPush(c.op)))
  }
}
