/**
  The upstream watcher (`watch`): for every tracked variant, query the head of
  its upstream branch, compare it with the stored hash, record the new hash and
  emit one work item per project that supports the variant.

  The run is a pure transition from (tracking map, registry, query results) to
  either the new tracking map with the work list, or an error. A failing query
  ends the run with an error before the tracking file is written, so an error
  carries no map: nothing is persisted.
 */
module Watch {
  import opened Wrappers
  import opened Text
  import opened Config
  import opened Variants

  /** One update to apply: project `project` should move `variant` to `commitId`. */
  datatype WorkItem = WorkItem(project: string, variant: string, commitId: string)

  /** A successful run: the tracking map to save and the work list. */
  datatype Watched = Watched(track: map<string, string>, items: seq<WorkItem>)

  /** `git ls-remote <repo> <branch>` in capture mode: the trimmed standard
      output, or the failure. Passed in; nothing is run. */
  type LsRemote = (string, string) -> Result<string, string>

  /** The query the watcher issues for variant `v`. */
  function Query(v: string, ls: LsRemote): Result<string, string>
    requires v in VariantTable
  {
    ls(VariantTable[v].repo, VariantTable[v].branch)
  }

  /** The hash is the first word of the query output ("" for empty output). */
  function LatestHash(out: string): string {
    FirstWord(out)
  }

  /** The hash `v`'s successful query reports. */
  function Fetched(v: string, ls: LsRemote): string
    requires v in VariantTable && Query(v, ls).Success?
  {
    LatestHash(Query(v, ls).value)
  }

  /** The commit id of a work item: the first seven characters of the hash. */
  function ShortId(hash: string): (id: string)
    ensures |id| == if |hash| < 7 then |hash| else 7
    ensures id == hash[..|id|]
  {
    Take(hash, 7)
  }

  /** The stored hash of `v`; an absent entry reads as "". */
  function Stored(track: map<string, string>, v: string): string {
    if v in track then track[v] else ""
  }

  /** Variant `v`'s query succeeded and reports a hash other than the stored one. */
  predicate Changed(track: map<string, string>, v: string, ls: LsRemote)
    requires v in VariantTable
  {
    Query(v, ls).Success? && Fetched(v, ls) != Stored(track, v)
  }

  /** Key `k` has the same entry (or the same absence) in both maps. */
  predicate Unmoved(before: map<string, string>, after: map<string, string>, k: string) {
    && (k in before <==> k in after)
    && (k in before ==> before[k] == after[k])
  }

  // ------------------------------------------------------------ project match

  /** The supported list with the substring rename applied to every entry. */
  function NormalizeAll(names: seq<string>): (r: seq<string>)
    ensures |r| == |names|
    ensures forall i | 0 <= i < |names| :: r[i] == NormalizeLegacy(names[i])
    decreases |names|
  {
    if names == [] then [] else [NormalizeLegacy(names[0])] + NormalizeAll(names[1..])
  }

  /** Project `k` takes updates of `v`: a non-reserved key holding a record
      whose normalised supported list contains `v`. */
  predicate Eligible(reg: Registry, k: string, v: string) {
    && k in reg
    && !IsReservedKey(k)
    && reg[k].Project?
    && v in NormalizeAll(reg[k].config.supportedKsu.GetOr([]))
  }

  /** The keys of `order` that take updates of `v`, in order. */
  function EligibleKeys(reg: Registry, order: seq<string>, v: string): (keys: seq<string>)
    ensures forall k :: k in keys <==> k in order && Eligible(reg, k, v)
    ensures Distinct(order) ==> Distinct(keys)
    decreases |order|
  {
    if order == [] then []
    else (if Eligible(reg, order[0], v) then [order[0]] else []) + EligibleKeys(reg, order[1..], v)
  }

  /** One work item per key, all for `v` at `id`. */
  function ItemsOf(keys: seq<string>, v: string, id: string): (items: seq<WorkItem>)
    ensures |items| == |keys|
    ensures forall i | 0 <= i < |keys| :: items[i] == WorkItem(keys[i], v, id)
    decreases |keys|
  {
    if keys == [] then [] else [WorkItem(keys[0], v, id)] + ItemsOf(keys[1..], v, id)
  }

  /** The work items a change of `v` to `hash` calls for: exactly one per
      project of `order` that takes updates of `v`, none for any other. */
  function Expected(reg: Registry, order: seq<string>, v: string, hash: string): seq<WorkItem> {
    ItemsOf(EligibleKeys(reg, order, v), v, ShortId(hash))
  }

  /** The expected items are exactly one per project of `order` that takes
      updates of `v`, all for `v` at the short id of `hash`. */
  lemma ExpectedItems(reg: Registry, order: seq<string>, v: string, hash: string)
    ensures var items := Expected(reg, order, v, hash);
            && (forall it | it in items :: it.variant == v && it.commitId == ShortId(hash) && Eligible(reg, it.project, v))
            && (forall k | k in order && Eligible(reg, k, v) :: WorkItem(k, v, ShortId(hash)) in items)
            && |items| == |EligibleKeys(reg, order, v)|
            && (Distinct(order) ==> Distinct(items))
  {
    var keys := EligibleKeys(reg, order, v);
    var items := ItemsOf(keys, v, ShortId(hash));
    assert forall it | it in items :: exists i | 0 <= i < |keys| :: it == WorkItem(keys[i], v, ShortId(hash));
    assert forall k | k in keys :: exists i | 0 <= i < |keys| :: keys[i] == k && items[i] == WorkItem(k, v, ShortId(hash));
  }

  /** The inner loop over the projects for a changed variant `v`: a
      non-reserved value that does not read as a project ends the run. */
  function ItemsFor(reg: Registry, order: seq<string>, v: string, hash: string): (r: Result<seq<WorkItem>, Error>)
    requires forall i | 0 <= i < |order| :: order[i] in reg
    ensures r.Success? <==> ProjectsReadable(reg, order)
    ensures r.Success? ==> r.value == ItemsOf(EligibleKeys(reg, order, v), v, ShortId(hash))
    decreases |order|
  {
    if order == [] then Success([])
    else
      var k := order[0];
      if IsReservedKey(k) then ItemsFor(reg, order[1..], v, hash)
      else match reg[k]
        case Malformed => Failure(NotAProject(k))
        case Project(p) =>
          var rest :- ItemsFor(reg, order[1..], v, hash);
          var supported := NormalizeAll(p.supportedKsu.GetOr([]));
          Success((if v in supported then [WorkItem(k, v, ShortId(hash))] else []) + rest)
  }

  // ---------------------------------------------------------------- the loop

  /** The loop over the variants in iteration order `vorder`. */
  function WatchLoop(track: map<string, string>, vorder: seq<string>, reg: Registry,
                     porder: seq<string>, ls: LsRemote): Result<Watched, Error>
    requires forall i | 0 <= i < |vorder| :: vorder[i] in VariantTable
    requires forall i | 0 <= i < |porder| :: porder[i] in reg
    decreases |vorder|
  {
    if vorder == [] then Success(Watched(track, []))
    else
      var v := vorder[0];
      match Query(v, ls)
      case Failure(e) => Failure(CommandFailed(e))
      case Success(out) =>
        var hash := LatestHash(out);
        if hash != Stored(track, v) then
          var items :- ItemsFor(reg, porder, v, hash);
          var rest :- WatchLoop(track[v := hash], vorder[1..], reg, porder, ls);
          Success(Watched(rest.track, items + rest.items))
        else
          WatchLoop(track, vorder[1..], reg, porder, ls)
  }

  /** `watch`: drop the legacy key from the tracking map, then run the loop.
      It fails whenever some variant's query fails, and it succeeds whenever
      every query succeeds and every project record reads. */
  function Watch(track: map<string, string>, reg: Registry, porder: seq<string>,
                 vorder: seq<string>, ls: LsRemote): (r: Result<Watched, Error>)
    requires IsListingOf(vorder, VariantTable) && IsListingOf(porder, reg)
    ensures (exists v | v in VariantTable :: Query(v, ls).Failure?) ==> r.Failure?
    ensures (forall v | v in VariantTable :: Query(v, ls).Success?) && ProjectsReadable(reg, porder) ==> r.Success?
  {
    var r := WatchLoop(track - {LegacyName}, vorder, reg, porder, ls);
    WatchLoopOutcome(track - {LegacyName}, vorder, reg, porder, ls);
    assert (exists v | v in VariantTable :: Query(v, ls).Failure?) ==>
             exists i | 0 <= i < |vorder| :: Query(vorder[i], ls).Failure?;
    r
  }

  /** The `found_updates` output. */
  function FoundUpdates(items: seq<WorkItem>): string {
    if |items| > 0 then "true" else "false"
  }

  // ------------------------------------------------------------- the filter

  /** The work items of one variant, in order. */
  function OfVariant(items: seq<WorkItem>, v: string): (r: seq<WorkItem>)
    ensures forall it :: it in r <==> it in items && it.variant == v
    decreases |items|
  {
    if items == [] then []
    else (if items[0].variant == v then [items[0]] else []) + OfVariant(items[1..], v)
  }

  lemma {:induction false} OfVariantAppend(a: seq<WorkItem>, b: seq<WorkItem>, v: string)
    ensures OfVariant(a + b, v) == OfVariant(a, v) + OfVariant(b, v)
    decreases |a|
  {
    if a != [] {
      assert (a + b)[1..] == a[1..] + b;
      OfVariantAppend(a[1..], b, v);
    } else {
      assert a + b == b;
    }
  }

  lemma {:induction false} OfVariantAll(items: seq<WorkItem>, v: string)
    requires forall it | it in items :: it.variant == v
    ensures OfVariant(items, v) == items
    decreases |items|
  {
    if items != [] {
      OfVariantAll(items[1..], v);
    }
  }

  lemma OfVariantNone(items: seq<WorkItem>, v: string)
    requires forall it | it in items :: it.variant != v
    ensures OfVariant(items, v) == []
  {
    if OfVariant(items, v) != [] {
      assert OfVariant(items, v)[0] in OfVariant(items, v);
    }
  }

  // ---------------------------------------------------------- loop lemmas

  /** A failing query ends the run with an error; when every query succeeds
      and every project record reads, the run succeeds. */
  lemma {:induction false} WatchLoopOutcome(track: map<string, string>, vorder: seq<string>, reg: Registry,
                                            porder: seq<string>, ls: LsRemote)
    requires forall i | 0 <= i < |vorder| :: vorder[i] in VariantTable
    requires forall i | 0 <= i < |porder| :: porder[i] in reg
    ensures (exists i | 0 <= i < |vorder| :: Query(vorder[i], ls).Failure?) ==> WatchLoop(track, vorder, reg, porder, ls).Failure?
    ensures (forall i | 0 <= i < |vorder| :: Query(vorder[i], ls).Success?) && ProjectsReadable(reg, porder)
            ==> WatchLoop(track, vorder, reg, porder, ls).Success?
    decreases |vorder|
  {
    if vorder != [] {
      var v := vorder[0];
      if Query(v, ls).Success? {
        var hash := LatestHash(Query(v, ls).value);
        var next := if hash != Stored(track, v) then track[v := hash] else track;
        WatchLoopOutcome(next, vorder[1..], reg, porder, ls);
        if exists i | 0 <= i < |vorder| :: Query(vorder[i], ls).Failure? {
          var i :| 0 <= i < |vorder| && Query(vorder[i], ls).Failure?;
          assert vorder[1..][i - 1] == vorder[i];
        }
        if forall i | 0 <= i < |vorder| :: Query(vorder[i], ls).Success? {
          assert forall i | 0 <= i < |vorder[1..]| :: Query(vorder[1..][i], ls).Success? by {
            forall i | 0 <= i < |vorder[1..]| ensures Query(vorder[1..][i], ls).Success? {
              assert vorder[1..][i] == vorder[i + 1];
            }
          }
        }
      }
    }
  }

  /** A distinct sequence splits into a head that does not recur and a
      distinct tail. */
  lemma DistinctTail<T>(s: seq<T>)
    requires Distinct(s) && s != []
    ensures s[0] !in s[1..]
    ensures Distinct(s[1..])
  {
    forall j | 0 <= j < |s[1..]|
      ensures s[1..][j] != s[0]
    {
      assert s[1..][j] == s[j + 1];
    }
  }

  /** One step of a successful loop: a changed head variant records its new
      hash before the rest of the loop runs, an unchanged one does not. */
  lemma WatchLoopStep(track: map<string, string>, vorder: seq<string>, reg: Registry,
                      porder: seq<string>, ls: LsRemote)
    requires forall i | 0 <= i < |vorder| :: vorder[i] in VariantTable
    requires forall i | 0 <= i < |porder| :: porder[i] in reg
    requires vorder != []
    requires WatchLoop(track, vorder, reg, porder, ls).Success?
    ensures Query(vorder[0], ls).Success?
    ensures var v := vorder[0];
            var next := if Changed(track, v, ls) then track[v := Fetched(v, ls)] else track;
            var mine := if Changed(track, v, ls) then Expected(reg, porder, v, Fetched(v, ls)) else [];
            var rest := WatchLoop(next, vorder[1..], reg, porder, ls);
            && rest.Success?
            && WatchLoop(track, vorder, reg, porder, ls).value == Watched(rest.value.track, mine + rest.value.items)
  {
    var v, tail := vorder[0], vorder[1..];
    var w := WatchLoop(track, vorder, reg, porder, ls);
    assert Query(v, ls).Success?;
    var hash := Fetched(v, ls);
    if Changed(track, v, ls) {
      var items := ItemsFor(reg, porder, v, hash);
      assert items.Success?;
      assert items.value == Expected(reg, porder, v, hash);
      var rest := WatchLoop(track[v := hash], tail, reg, porder, ls);
      assert rest.Success?;
      assert w == Success(Watched(rest.value.track, items.value + rest.value.items));
    } else {
      assert w == WatchLoop(track, tail, reg, porder, ls);
    }
  }

  /** What a successful loop does to one key of the tracking map: a variant of
      the loop whose fetched hash differs from the stored one gets the fetched
      hash; any other key keeps its entry (or its absence). */
  lemma {:induction false} WatchLoopTrack(track: map<string, string>, vorder: seq<string>, reg: Registry,
                                          porder: seq<string>, ls: LsRemote, k: string)
    requires forall i | 0 <= i < |vorder| :: vorder[i] in VariantTable
    requires forall i | 0 <= i < |porder| :: porder[i] in reg
    requires Distinct(vorder)
    requires WatchLoop(track, vorder, reg, porder, ls).Success?
    ensures var w := WatchLoop(track, vorder, reg, porder, ls).value;
            if k in vorder && k in VariantTable && Changed(track, k, ls)
            then k in w.track && w.track[k] == Fetched(k, ls)
            else Unmoved(track, w.track, k)
    decreases |vorder|
  {
    if vorder != [] {
      var v := vorder[0];
      var tail := vorder[1..];
      WatchLoopStep(track, vorder, reg, porder, ls);
      var next := if Changed(track, v, ls) then track[v := Fetched(v, ls)] else track;
      DistinctTail(vorder);
      WatchLoopTrack(next, tail, reg, porder, ls, k);
      if k != v {
        assert k in vorder <==> k in tail;
        assert Stored(next, k) == Stored(track, k);
      }
    }
  }

  /** The work items a successful loop reports for one variant: exactly the
      expected ones when the variant is in the loop and changed, none
      otherwise. */
  lemma {:induction false} WatchLoopItems(track: map<string, string>, vorder: seq<string>, reg: Registry,
                                          porder: seq<string>, ls: LsRemote, k: string)
    requires forall i | 0 <= i < |vorder| :: vorder[i] in VariantTable
    requires forall i | 0 <= i < |porder| :: porder[i] in reg
    requires Distinct(vorder)
    requires WatchLoop(track, vorder, reg, porder, ls).Success?
    ensures var w := WatchLoop(track, vorder, reg, porder, ls).value;
            OfVariant(w.items, k) ==
              if k in vorder && k in VariantTable && Changed(track, k, ls)
              then Expected(reg, porder, k, Fetched(k, ls))
              else []
    decreases |vorder|
  {
    if vorder != [] {
      var v := vorder[0];
      var tail := vorder[1..];
      var next := if Changed(track, v, ls) then track[v := Fetched(v, ls)] else track;
      WatchLoopStep(track, vorder, reg, porder, ls);
      var rest := WatchLoop(next, tail, reg, porder, ls).value;
      DistinctTail(vorder);
      WatchLoopItems(next, tail, reg, porder, ls, k);
      if k == v {
        assert OfVariant(rest.items, k) == [] by {
          assert k !in tail;
        }
        HeadVariantItems(track, reg, porder, ls, v, rest.items);
      } else {
        OtherVariantItems(track, reg, porder, ls, v, rest.items, k);
        assert k in vorder <==> k in tail;
        assert Stored(next, k) == Stored(track, k);
      }
    }
  }

  /** The items one step emits for its own variant `v`, followed by items
      of other variants: filtering on `v` keeps exactly the step's items. */
  lemma HeadVariantItems(track: map<string, string>, reg: Registry, porder: seq<string>, ls: LsRemote,
                         v: string, later: seq<WorkItem>)
    requires v in VariantTable && Query(v, ls).Success?
    requires OfVariant(later, v) == []
    ensures var mine := if Changed(track, v, ls) then Expected(reg, porder, v, Fetched(v, ls)) else [];
            OfVariant(mine + later, v) == mine
  {
    var mine := if Changed(track, v, ls) then Expected(reg, porder, v, Fetched(v, ls)) else [];
    OfVariantAppend(mine, later, v);
    if Changed(track, v, ls) {
      ExpectedItems(reg, porder, v, Fetched(v, ls));
    }
    OfVariantAll(mine, v);
  }

  /** Filtering on another variant `k` ignores the items the step for `v`
      emits. */
  lemma OtherVariantItems(track: map<string, string>, reg: Registry, porder: seq<string>, ls: LsRemote,
                          v: string, later: seq<WorkItem>, k: string)
    requires v in VariantTable && Query(v, ls).Success? && k != v
    ensures var mine := if Changed(track, v, ls) then Expected(reg, porder, v, Fetched(v, ls)) else [];
            OfVariant(mine + later, k) == OfVariant(later, k)
  {
    var mine := if Changed(track, v, ls) then Expected(reg, porder, v, Fetched(v, ls)) else [];
    OfVariantAppend(mine, later, k);
    if Changed(track, v, ls) {
      ExpectedItems(reg, porder, v, Fetched(v, ls));
    }
    OfVariantNone(mine, k);
  }

  // ------------------------------------------------------- the whole watch

  lemma TableVariantsAreNotLegacy(v: string)
    requires v in VariantTable
    ensures v != LegacyName
  {
  }

  /** The tracking map `watch` saves, key by key: the legacy key is gone; a
      variant whose fetched hash differs from the stored one (absent counts
      as "") gets the fetched hash, even when no project takes it; an
      unchanged variant and every other key keep their entry. */
  lemma WatchTracking(track: map<string, string>, reg: Registry, porder: seq<string>,
                      vorder: seq<string>, ls: LsRemote, k: string)
    requires IsListingOf(vorder, VariantTable) && IsListingOf(porder, reg)
    requires Watch(track, reg, porder, vorder, ls).Success?
    ensures var w := Watch(track, reg, porder, vorder, ls).value;
            && LegacyName !in w.track
            && (k in VariantTable ==> Query(k, ls).Success?)
            && (k in VariantTable && Changed(track, k, ls) ==> k in w.track && w.track[k] == Fetched(k, ls))
            && (k in VariantTable && !Changed(track, k, ls) ==> Unmoved(track, w.track, k))
            && (k !in VariantTable && k != LegacyName ==> Unmoved(track, w.track, k))
  {
    var t0 := track - {LegacyName};
    WatchLoopTrack(t0, vorder, reg, porder, ls, LegacyName);
    WatchLoopTrack(t0, vorder, reg, porder, ls, k);
    if k in VariantTable {
      var i :| 0 <= i < |vorder| && vorder[i] == k;
      TableVariantsAreNotLegacy(k);
      assert Stored(t0, k) == Stored(track, k);
    } else {
      assert k !in vorder;
    }
  }

  /** The work list `watch` reports, variant by variant: for a changed
      variant exactly the expected items (one per supporting project, with the
      first seven characters of the new hash), for an unchanged variant none,
      and no item of a variant outside the table. */
  lemma WatchItems(track: map<string, string>, reg: Registry, porder: seq<string>,
                   vorder: seq<string>, ls: LsRemote, k: string)
    requires IsListingOf(vorder, VariantTable) && IsListingOf(porder, reg)
    requires Watch(track, reg, porder, vorder, ls).Success?
    ensures var w := Watch(track, reg, porder, vorder, ls).value;
            && (k in VariantTable && Changed(track, k, ls) ==> OfVariant(w.items, k) == Expected(reg, porder, k, Fetched(k, ls)))
            && (k in VariantTable && !Changed(track, k, ls) ==> OfVariant(w.items, k) == [])
            && (k !in VariantTable ==> OfVariant(w.items, k) == [])
  {
    var t0 := track - {LegacyName};
    WatchLoopItems(t0, vorder, reg, porder, ls, k);
    if k in VariantTable {
      var i :| 0 <= i < |vorder| && vorder[i] == k;
      TableVariantsAreNotLegacy(k);
      assert Stored(t0, k) == Stored(track, k);
    }
  }

  /** Every reported work item names a tracked variant that changed, a
      project that takes updates of it, and the short id of the new hash. */
  lemma WatchItemEligible(track: map<string, string>, reg: Registry, porder: seq<string>,
                          vorder: seq<string>, ls: LsRemote, it: WorkItem)
    requires IsListingOf(vorder, VariantTable) && IsListingOf(porder, reg)
    requires Watch(track, reg, porder, vorder, ls).Success?
    requires it in Watch(track, reg, porder, vorder, ls).value.items
    ensures it.variant in VariantTable && Changed(track, it.variant, ls)
    ensures Eligible(reg, it.project, it.variant)
    ensures it.commitId == ShortId(Fetched(it.variant, ls))
  {
    var w := Watch(track, reg, porder, vorder, ls).value;
    var v := it.variant;
    assert it in OfVariant(w.items, v);
    WatchItems(track, reg, porder, vorder, ls, v);
    assert v in VariantTable && Changed(track, v, ls);
    assert it in Expected(reg, porder, v, Fetched(v, ls));
    ExpectedItems(reg, porder, v, Fetched(v, ls));
  }

  /** `found_updates` is "true" exactly when some changed variant is supported
      by some project. */
  lemma WatchFoundUpdates(track: map<string, string>, reg: Registry, porder: seq<string>,
                          vorder: seq<string>, ls: LsRemote)
    requires IsListingOf(vorder, VariantTable) && IsListingOf(porder, reg)
    requires Watch(track, reg, porder, vorder, ls).Success?
    ensures var w := Watch(track, reg, porder, vorder, ls).value;
            FoundUpdates(w.items) == "true" <==>
              exists v | v in VariantTable :: Changed(track, v, ls) && EligibleKeys(reg, porder, v) != []
  {
    var w := Watch(track, reg, porder, vorder, ls).value;
    if |w.items| > 0 {
      var v := w.items[0].variant;
      assert w.items[0] in OfVariant(w.items, v);
      WatchItems(track, reg, porder, vorder, ls, v);
      assert v in VariantTable && Changed(track, v, ls);
      var e := Expected(reg, porder, v, Fetched(v, ls));
      assert e != [];
      ExpectedItems(reg, porder, v, Fetched(v, ls));
      assert EligibleKeys(reg, porder, v) != [];
    }
    if exists v | v in VariantTable :: Changed(track, v, ls) && EligibleKeys(reg, porder, v) != [] {
      var v :| v in VariantTable && Changed(track, v, ls) && EligibleKeys(reg, porder, v) != [];
      WatchItems(track, reg, porder, vorder, ls, v);
      var e := Expected(reg, porder, v, Fetched(v, ls));
      ExpectedItems(reg, porder, v, Fetched(v, ls));
      assert |e| > 0;
      assert e[0] in OfVariant(w.items, v);
    }
  }
}
