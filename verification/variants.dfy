/**
  Variant names: the branch-to-suffix table used for release names and local
  versions, and the two forms of the legacy rename `sukisuultra` -> `resukisu`.
 */
module Variants {
  import opened Text

  const LegacyName: string := "sukisuultra"
  const CurrentName: string := "resukisu"

  /** The branch names the tools know; the legacy name is still accepted. */
  const Vocabulary: set<string> := {"main", "lkm", "ksu", "mksu", "resukisu", "sukisuultra"}

  /** The release suffix of a branch: LKM for the plain kernel, a short tag per
      variant, and the upper-cased branch name for anything else. */
  function BranchSuffix(branch: string): (suffix: string)
    ensures (branch == "main" || branch == "lkm") ==> suffix == "LKM"
    ensures branch == "ksu" ==> suffix == "KSU"
    ensures branch == "mksu" ==> suffix == "MKSU"
    ensures (branch == "resukisu" || branch == "sukisuultra") ==> suffix == "ReSuki"
    ensures branch !in Vocabulary ==> suffix == ToUpper(branch)
  {
    if branch == "main" || branch == "lkm" then "LKM"
    else if branch == "ksu" then "KSU"
    else if branch == "mksu" then "MKSU"
    else if branch == "resukisu" || branch == "sukisuultra" then "ReSuki"
    else ToUpper(branch)
  }

  /** The four branches a project is built from get four different suffixes,
      so their release tags never collide. */
  lemma TargetSuffixesDistinct()
    ensures BranchSuffix("main") != BranchSuffix("ksu")
    ensures BranchSuffix("main") != BranchSuffix("mksu")
    ensures BranchSuffix("main") != BranchSuffix("resukisu")
    ensures BranchSuffix("ksu") != BranchSuffix("mksu")
    ensures BranchSuffix("ksu") != BranchSuffix("resukisu")
    ensures BranchSuffix("mksu") != BranchSuffix("resukisu")
  {
  }

  /** The exact-match rename used when the release matrix is built: only the
      whole legacy name is replaced. */
  function RenameLegacy(name: string): (r: string)
    ensures name == LegacyName ==> r == CurrentName
    ensures name != LegacyName ==> r == name
  {
    if name == LegacyName then CurrentName else name
  }

  /** The exact rename never yields the legacy name and is idempotent. */
  lemma RenameLegacyIdempotent(name: string)
    ensures RenameLegacy(name) != LegacyName
    ensures RenameLegacy(RenameLegacy(name)) == RenameLegacy(name)
  {
  }

  /** Renaming a branch never changes its release suffix. */
  lemma SuffixStableUnderRename(branch: string)
    ensures BranchSuffix(RenameLegacy(branch)) == BranchSuffix(branch)
  {
  }

  /** The substring rename used by the watcher and the updater: every
      occurrence of the legacy name inside the string is replaced. */
  function NormalizeLegacy(name: string): (r: string)
    ensures !Contains(name, LegacyName) ==> r == name
  {
    Replace(name, LegacyName, CurrentName)
  }

  /** The first occurrence of the legacy name becomes the current name, the
      text before it is kept and the rest is renamed in turn; in particular a
      name that starts with the legacy name starts with the current one. */
  lemma NormalizeOccurrence(a: string, b: string)
    requires !Contains(a, LegacyName) && SeamFree(a, LegacyName + b, LegacyName)
    ensures NormalizeLegacy(a + LegacyName + b) == a + CurrentName + NormalizeLegacy(b)
    ensures NormalizeLegacy(LegacyName + b) == CurrentName + NormalizeLegacy(b)
  {
    ReplaceOccurrence(a, LegacyName, CurrentName, b);
    ReplaceOccurrence([], LegacyName, CurrentName, b);
    assert [] + LegacyName + b == LegacyName + b;
  }

  /** The substring rename is idempotent on every input whose result no longer
      contains the legacy name. */
  lemma NormalizeIdempotentWhenClean(name: string)
    requires !Contains(NormalizeLegacy(name), LegacyName)
    ensures NormalizeLegacy(NormalizeLegacy(name)) == NormalizeLegacy(name)
  {
  }

  /** On the known branch names both renames agree, and the substring rename
      is idempotent there. */
  lemma {:induction false} NormalizeOnVocabulary(name: string)
    requires name in Vocabulary
    ensures NormalizeLegacy(name) == RenameLegacy(name)
    ensures NormalizeLegacy(NormalizeLegacy(name)) == NormalizeLegacy(name)
  {
    if name == LegacyName {
      ReplaceWhole(LegacyName, CurrentName);
    }
    assert !Contains(CurrentName, LegacyName);
  }

  /** The substring rename is not idempotent in general: a name that embeds
      the legacy name followed by "ultra" is rewritten twice. */
  lemma NormalizeNotIdempotent()
    ensures NormalizeLegacy("sukisuultraultra") == "resukisuultra"
    ensures NormalizeLegacy("resukisuultra") == "reresukisu"
    ensures NormalizeLegacy(NormalizeLegacy("sukisuultraultra")) != NormalizeLegacy("sukisuultraultra")
  {
    var s := "sukisuultraultra";
    assert StartsWith(s, LegacyName);
    assert s[|LegacyName|..] == "ultra";
    assert Replace("ultra", LegacyName, CurrentName) == "ultra";
    var t := "resukisuultra";
    assert t[..|LegacyName|][0] != LegacyName[0];
    assert t[1..] == "esukisuultra";
    assert t[1..][..|LegacyName|][0] != LegacyName[0];
    assert t[1..][1..] == "sukisuultra";
    assert StartsWith(t[1..][1..], LegacyName);
    assert t[1..][1..][|LegacyName|..] == "";
  }
}
