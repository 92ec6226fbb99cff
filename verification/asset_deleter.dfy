/**
 * The asset deleter (`delete_assets`): delete everything under a folder, deepest nesting
 * level first, then the folder itself; a dry run only reports what it would delete.
 *
 * The descendants come from the asset lister. They are put in buckets by nesting level,
 * the number of `/`-separated pieces of their `id`; the buckets are emitted from the
 * deepest level to the shallowest, each in the lister's order, and each entry is emitted
 * (and, outside a dry run, deleted) by its `name`. The id the caller gave comes last.
 */
module AssetDeleter {
  import opened EarthEngine
  import opened Paths
  import AssetLister

  /** One bucket: the entries of `list` at nesting level `l`, in list order. */
  function AtLevel(list: seq<AssetInfo>, l: nat): seq<AssetInfo>
  {
    if list == [] then []
    else
      var last := list[|list| - 1];
      AtLevel(list[..|list| - 1], l) + (if Level(last.id) == l then [last] else [])
  }

  /** The deepest nesting level in `list`, 0 for an empty list. */
  function MaxLevel(list: seq<AssetInfo>): nat
  {
    if list == [] then 0
    else
      var m, last := MaxLevel(list[..|list| - 1]), Level(list[|list| - 1].id);
      if last > m then last else m
  }

  /** The buckets of levels `hi` down to `lo + 1`, deepest first. */
  function Band(list: seq<AssetInfo>, hi: nat, lo: nat): seq<AssetInfo>
    decreases hi
  {
    if hi <= lo then [] else AtLevel(list, hi) + Band(list, hi - 1, lo)
  }

  /** The order in which the descendants are deleted: every bucket, deepest first. */
  function Ordered(list: seq<AssetInfo>): seq<AssetInfo>
  {
    Band(list, MaxLevel(list), 0)
  }

  /** The `name` of each entry, in order. */
  function Names(list: seq<AssetInfo>): seq<string>
  {
    if list == [] then [] else Names(list[..|list| - 1]) + [list[|list| - 1].name]
  }

  /** What `delete_assets` returns for the asset `a` that `getAsset(assetId)` found: the
      names of its descendants, deepest level first, for a folder; then `assetId`. */
  function DeletionOrder(a: Asset, assetId: string): seq<string>
  {
    (if a.kind == Folder then Names(Ordered(AssetLister.Listing(a.children))) else [])
    + [assetId]
  }

  /** `ee.data.deleteAsset` on each id, in order. */
  function Deletes(ids: seq<string>): seq<Call>
  {
    if ids == [] then [] else Deletes(ids[..|ids| - 1]) + [Call.DeleteAsset(ids[|ids| - 1])]
  }

  /** The remote calls a run that reports `ids` makes: none in a dry run. */
  function DeleteCalls(ids: seq<string>, dryRun: bool): seq<Call>
  {
    if dryRun then [] else Deletes(ids)
  }

  /** The `delete` closure: record `id` in the output and, outside a dry run, delete it. */
  method Delete(s: Session, output: seq<string>, id: string, dryRun: bool) returns (out: seq<string>)
    modifies s`log
    ensures out == output + [id]
    ensures s.log == old(s.log) + DeleteCalls([id], dryRun)
  {
    out := output + [id];
    if !dryRun {
      s.DeleteAsset(id);
    }
    DeletesAt([id]);
  }

  /** The bucketing loop: a dictionary from level to the entries at that level, in list
      order, with a key only for the levels that occur. `top` is the deepest level, the
      first key `sorted(..., reverse=True)` yields. */
  method BucketByLevel(list: seq<AssetInfo>) returns (buckets: map<nat, seq<AssetInfo>>, top: nat)
    ensures forall l :: l in buckets <==> AtLevel(list, l) != []
    ensures forall l :: l in buckets ==> buckets[l] == AtLevel(list, l)
    ensures top == MaxLevel(list)
  {
    buckets, top := map[], 0;
    for i := 0 to |list|
      invariant forall l :: l in buckets <==> AtLevel(list[..i], l) != []
      invariant forall l :: l in buckets ==> buckets[l] == AtLevel(list[..i], l)
      invariant top == MaxLevel(list[..i])
    {
      var asset := list[i];
      var lvl := |Split(asset.id)|;
      assert list[..i + 1][..i] == list[..i];
      if lvl !in buckets {
        buckets := buckets[lvl := []];
      }
      buckets := buckets[lvl := buckets[lvl] + [asset]];
      top := if lvl > top then lvl else top;
    }
    assert list[..|list|] == list;
  }

  /** The inner loop: `delete` each entry of one bucket by name, in bucket order. */
  method DeleteBucket(s: Session, output: seq<string>, bucket: seq<AssetInfo>, dryRun: bool)
    returns (out: seq<string>)
    modifies s`log
    ensures out == output + Names(bucket)
    ensures s.log == old(s.log) + DeleteCalls(Names(bucket), dryRun)
  {
    out := output;
    for k := 0 to |bucket|
      invariant out == output + Names(bucket[..k])
      invariant s.log == old(s.log) + DeleteCalls(Names(bucket[..k]), dryRun)
    {
      assert bucket[..k + 1] == bucket[..k] + [bucket[k]];
      NamesAppend(bucket[..k], [bucket[k]]);
      DeleteCallsAppend(Names(bucket[..k]), [bucket[k].name], dryRun);
      out := Delete(s, out, bucket[k].name, dryRun);
    }
    assert bucket[..|bucket|] == bucket;
  }

  /** The names in the buckets of levels `hi` down to `lo + 1`, deepest first, skipping the
      levels the dictionary has no key for. */
  function BucketNames(buckets: map<nat, seq<AssetInfo>>, hi: nat, lo: nat): seq<string>
    decreases hi - lo
  {
    if hi <= lo then []
    else BucketNames(buckets, hi, lo + 1) + (if lo + 1 in buckets then Names(buckets[lo + 1]) else [])
  }

  /** The outer loop: the buckets from the deepest level `top` down to level 1. */
  method DeleteDeepestFirst(s: Session, buckets: map<nat, seq<AssetInfo>>, top: nat, dryRun: bool)
    returns (output: seq<string>)
    modifies s`log
    ensures output == BucketNames(buckets, top, 0)
    ensures s.log == old(s.log) + DeleteCalls(output, dryRun)
  {
    output := [];
    var lvl: nat := top;
    while lvl > 0
      invariant lvl <= top
      invariant output == BucketNames(buckets, top, lvl)
      invariant s.log == old(s.log) + DeleteCalls(output, dryRun)
    {
      if lvl in buckets {
        DeleteCallsAppend(output, Names(buckets[lvl]), dryRun);
        output := DeleteBucket(s, output, buckets[lvl], dryRun);
      }
      lvl := lvl - 1;
    }
  }

  /** With the dictionary the bucketing loop builds, the buckets deepest first are the
      entries of `list` deepest first. */
  lemma {:induction false} BucketNamesOfList(list: seq<AssetInfo>, buckets: map<nat, seq<AssetInfo>>,
                                             hi: nat, lo: nat)
    requires forall l :: l in buckets <==> AtLevel(list, l) != []
    requires forall l :: l in buckets ==> buckets[l] == AtLevel(list, l)
    ensures BucketNames(buckets, hi, lo) == Names(Band(list, hi, lo))
    decreases hi - lo
  {
    if lo < hi {
      BucketNamesOfList(list, buckets, hi, lo + 1);
      BandGrows(list, hi, lo + 1);
      NamesAppend(Band(list, hi, lo + 1), AtLevel(list, lo + 1));
      if lo + 1 !in buckets {
        assert AtLevel(list, lo + 1) == [];
      }
    }
  }

  /**
   * `delete_assets(asset_id, dry_run)`. Fails if the store holds no asset with that id.
   * Otherwise it returns `DeletionOrder` and has deleted exactly those ids, in that
   * order, unless it is a dry run, which deletes nothing.
   */
  method DeleteAssets(s: Session, assetId: string, dryRun: bool) returns (r: Result<seq<string>>)
    modifies s`log
    ensures r.Err? <==> Lookup(s.roots, assetId).None?
    ensures r.Err? ==> r.error == AssetNotFound && s.log == old(s.log)
    ensures r.Ok? ==> r.value == DeletionOrder(Lookup(s.roots, assetId).value, assetId)
    ensures r.Ok? ==> s.log == old(s.log) + DeleteCalls(r.value, dryRun)
  {
    var output: seq<string> := [];
    var found := Lookup(s.roots, assetId);
    if found.None? {
      return Err(AssetNotFound);
    }
    var assetInfo := found.value;
    if assetInfo.kind == Folder {
      output := DeleteContents(s, assetInfo, dryRun);
    }
    DeleteCallsAppend(output, [assetId], dryRun);
    output := Delete(s, output, assetId, dryRun);
    return Ok(output);
  }

  /** The folder branch of `delete_assets`: list everything under the folder, bucket it by
      level and delete the buckets deepest first. */
  method DeleteContents(s: Session, folder: Asset, dryRun: bool) returns (output: seq<string>)
    modifies s`log
    ensures output == Names(Ordered(AssetLister.Listing(folder.children)))
    ensures s.log == old(s.log) + DeleteCalls(output, dryRun)
  {
    var assetList := AssetLister.GetAssets(folder);
    var buckets, top := BucketByLevel(assetList);
    output := DeleteDeepestFirst(s, buckets, top, dryRun);
    BucketNamesOfList(assetList, buckets, top, 0);
  }

  /** Taking names is a map: one name per entry, position by position. */
  lemma {:induction false} NamesAt(list: seq<AssetInfo>)
    ensures |Names(list)| == |list|
    ensures forall k :: 0 <= k < |list| ==> Names(list)[k] == list[k].name
  {
    if list != [] {
      var front := list[..|list| - 1];
      NamesAt(front);
      assert forall k :: 0 <= k < |front| ==> list[k] == front[k];
    }
  }

  /** A real run deletes each reported id once, in the reported order. */
  lemma {:induction false} DeletesAt(ids: seq<string>)
    ensures |Deletes(ids)| == |ids|
    ensures forall k :: 0 <= k < |ids| ==> Deletes(ids)[k] == Call.DeleteAsset(ids[k])
  {
    if ids != [] {
      var front := ids[..|ids| - 1];
      DeletesAt(front);
      assert forall k :: 0 <= k < |front| ==> ids[k] == front[k];
    }
  }

  /** A bucket holds entries of `list` at its own level only. */
  lemma {:induction false} AtLevelMembers(list: seq<AssetInfo>, l: nat)
    ensures forall x :: x in AtLevel(list, l) ==> Level(x.id) == l && x in list
  {
    if list != [] {
      AtLevelMembers(list[..|list| - 1], l);
    }
  }

  /** `MaxLevel` bounds every level and is one of them. */
  lemma {:induction false} MaxLevelBounds(list: seq<AssetInfo>)
    ensures forall x :: x in list ==> Level(x.id) <= MaxLevel(list)
    ensures list != [] ==> exists x :: x in list && Level(x.id) == MaxLevel(list)
  {
    if list != [] {
      var front := list[..|list| - 1];
      MaxLevelBounds(front);
      assert list == front + [list[|list| - 1]];
    }
  }

  lemma {:induction false} NamesAppend(a: seq<AssetInfo>, b: seq<AssetInfo>)
    ensures Names(a + b) == Names(a) + Names(b)
  {
    var l, r := Names(a + b), Names(a) + Names(b);
    NamesAt(a + b);
    NamesAt(a);
    NamesAt(b);
    forall k | 0 <= k < |l| ensures l[k] == r[k] {
      if k < |a| {
        assert (a + b)[k] == a[k];
      } else {
        assert (a + b)[k] == b[k - |a|];
      }
    }
  }

  lemma DeleteCallsAppend(a: seq<string>, b: seq<string>, dryRun: bool)
    ensures DeleteCalls(a + b, dryRun) == DeleteCalls(a, dryRun) + DeleteCalls(b, dryRun)
  {
    if !dryRun {
      var l, r := Deletes(a + b), Deletes(a) + Deletes(b);
      DeletesAt(a + b);
      DeletesAt(a);
      DeletesAt(b);
      forall k | 0 <= k < |l| ensures l[k] == r[k] {
        if k < |a| {
          assert (a + b)[k] == a[k];
        } else {
          assert (a + b)[k] == b[k - |a|];
        }
      }
    }
  }

  /** Lowering the bottom of a band by one level appends that level's bucket. */
  lemma {:induction false} BandGrows(list: seq<AssetInfo>, hi: nat, lo: nat)
    requires 0 < lo <= hi
    ensures Band(list, hi, lo - 1) == Band(list, hi, lo) + AtLevel(list, lo)
    decreases hi
  {
    if hi > lo {
      BandGrows(list, hi - 1, lo);
    }
  }

  // ---------------------------------------------------------------------------
  // The deletion order: a permutation of the listing, levels never increasing,
  // listing order kept within a level.
  // ---------------------------------------------------------------------------

  /** Every entry of a band lies in one of its levels. */
  lemma {:induction false} BandLevels(list: seq<AssetInfo>, hi: nat, lo: nat)
    ensures forall k :: 0 <= k < |Band(list, hi, lo)| ==>
              lo < Level(Band(list, hi, lo)[k].id) <= hi
    decreases hi
  {
    if hi > lo {
      BandLevels(list, hi - 1, lo);
      AtLevelMembers(list, hi);
      var a: seq<AssetInfo>, b: seq<AssetInfo> := AtLevel(list, hi), Band(list, hi - 1, lo);
      forall k | 0 <= k < |a + b| ensures lo < Level((a + b)[k].id) <= hi {
        if k < |a| {
          assert (a + b)[k] == a[k] && a[k] in a;
        } else {
          assert (a + b)[k] == b[k - |a|];
        }
      }
    }
  }

  /** Levels never increase along a band. */
  lemma {:induction false} BandDescending(list: seq<AssetInfo>, hi: nat, lo: nat)
    ensures forall i, j :: 0 <= i < j < |Band(list, hi, lo)| ==>
              Level(Band(list, hi, lo)[i].id) >= Level(Band(list, hi, lo)[j].id)
    decreases hi
  {
    if hi > lo {
      BandDescending(list, hi - 1, lo);
      BandLevels(list, hi - 1, lo);
      AtLevelMembers(list, hi);
      var a: seq<AssetInfo>, b: seq<AssetInfo> := AtLevel(list, hi), Band(list, hi - 1, lo);
      forall i, j | 0 <= i < j < |a + b|
        ensures Level((a + b)[i].id) >= Level((a + b)[j].id)
      {
        if j < |a| {
          assert (a + b)[i] == a[i] && (a + b)[j] == a[j] && a[i] in a && a[j] in a;
        } else if i < |a| {
          assert (a + b)[i] == a[i] && (a + b)[j] == b[j - |a|] && a[i] in a;
        } else {
          assert (a + b)[i] == b[i - |a|] && (a + b)[j] == b[j - |a|];
        }
      }
    }
  }

  /** The deletion order never goes from a shallower level to a deeper one. */
  lemma OrderedDescending(list: seq<AssetInfo>)
    ensures forall i, j :: 0 <= i < j < |Ordered(list)| ==>
              Level(Ordered(list)[i].id) >= Level(Ordered(list)[j].id)
  {
    BandDescending(list, MaxLevel(list), 0);
  }

  lemma {:induction false} AtLevelAppend(a: seq<AssetInfo>, b: seq<AssetInfo>, l: nat)
    ensures AtLevel(a + b, l) == AtLevel(a, l) + AtLevel(b, l)
    decreases |b|
  {
    if b == [] {
      assert a + b == a;
    } else {
      var n := |b|;
      assert (a + b)[..|a + b| - 1] == a + b[..n - 1];
      assert (a + b)[|a + b| - 1] == b[n - 1];
      AtLevelAppend(a, b[..n - 1], l);
    }
  }

  /** Taking a bucket of a bucket. */
  lemma {:induction false} AtLevelOfBucket(list: seq<AssetInfo>, h: nat, l: nat)
    ensures AtLevel(AtLevel(list, h), l) == if h == l then AtLevel(list, l) else []
  {
    if list != [] {
      var front, last := list[..|list| - 1], list[|list| - 1];
      AtLevelOfBucket(front, h, l);
      AtLevelAppend(AtLevel(front, h), if Level(last.id) == h then [last] else [], l);
      assert [last][..0] == [];
    }
  }

  lemma {:induction false} AtLevelOfBand(list: seq<AssetInfo>, hi: nat, lo: nat, l: nat)
    ensures AtLevel(Band(list, hi, lo), l) == if lo < l <= hi then AtLevel(list, l) else []
    decreases hi
  {
    if hi > lo {
      AtLevelAppend(AtLevel(list, hi), Band(list, hi - 1, lo), l);
      AtLevelOfBucket(list, hi, l);
      AtLevelOfBand(list, hi - 1, lo, l);
    }
  }

  /** No entry sits at level 0 or below the deepest level. */
  lemma {:induction false} AtLevelOutside(list: seq<AssetInfo>, l: nat)
    requires l == 0 || l > MaxLevel(list)
    ensures AtLevel(list, l) == []
  {
    if list != [] {
      AtLevelOutside(list[..|list| - 1], l);
    }
  }

  /** Within each level the deletion order is the lister's order. */
  lemma OrderedKeepsLevelOrder(list: seq<AssetInfo>, l: nat)
    ensures AtLevel(Ordered(list), l) == AtLevel(list, l)
  {
    AtLevelOfBand(list, MaxLevel(list), 0, l);
    if l == 0 || l > MaxLevel(list) {
      AtLevelOutside(list, l);
    }
  }

  /** The entries of `list` whose level lies in `lo + 1 .. hi`, in list order. */
  function Within(list: seq<AssetInfo>, hi: nat, lo: nat): seq<AssetInfo>
  {
    if list == [] then []
    else
      var last := list[|list| - 1];
      Within(list[..|list| - 1], hi, lo) + (if lo < Level(last.id) <= hi then [last] else [])
  }

  lemma {:induction false} WithinSplit(list: seq<AssetInfo>, hi: nat, lo: nat)
    requires lo < hi
    ensures multiset(Within(list, hi, lo)) ==
              multiset(AtLevel(list, hi)) + multiset(Within(list, hi - 1, lo))
  {
    if list != [] {
      WithinSplit(list[..|list| - 1], hi, lo);
    }
  }

  lemma {:induction false} BandHoldsWithin(list: seq<AssetInfo>, hi: nat, lo: nat)
    ensures multiset(Band(list, hi, lo)) == multiset(Within(list, hi, lo))
    decreases hi
  {
    if hi <= lo {
      WithinEmpty(list, hi, lo);
    } else {
      BandHoldsWithin(list, hi - 1, lo);
      WithinSplit(list, hi, lo);
    }
  }

  lemma {:induction false} WithinEmpty(list: seq<AssetInfo>, hi: nat, lo: nat)
    requires hi <= lo
    ensures Within(list, hi, lo) == []
  {
    if list != [] {
      WithinEmpty(list[..|list| - 1], hi, lo);
    }
  }

  lemma {:induction false} WithinAll(list: seq<AssetInfo>, hi: nat)
    requires hi >= MaxLevel(list)
    ensures Within(list, hi, 0) == list
  {
    if list != [] {
      var front := list[..|list| - 1];
      assert MaxLevel(front) <= MaxLevel(list);
      WithinAll(front, hi);
      assert Level(list[|list| - 1].id) >= 1;
    }
  }

  /** The deletion order holds each listed entry exactly as often as the listing does. */
  lemma OrderedIsPermutation(list: seq<AssetInfo>)
    ensures multiset(Ordered(list)) == multiset(list)
    ensures |Ordered(list)| == |list|
  {
    BandHoldsWithin(list, MaxLevel(list), 0);
    WithinAll(list, MaxLevel(list));
    assert |multiset(Ordered(list))| == |multiset(list)|;
  }

  /** Taking names keeps permutations. */
  lemma {:induction false} NamesOfPermutation(a: seq<AssetInfo>, b: seq<AssetInfo>)
    requires multiset(a) == multiset(b)
    ensures multiset(Names(a)) == multiset(Names(b))
    decreases |a|
  {
    if a != [] {
      var front, x := a[..|a| - 1], a[|a| - 1];
      assert a == front + [x];
      assert x in multiset(b);
      var k :| 0 <= k < |b| && b[k] == x;
      WithoutOne(b, k);
      assert multiset(front) == multiset(a) - multiset{x};
      NamesOfPermutation(front, b[..k] + b[k + 1..]);
      NamesAppend(front, [x]);
      NamesWithoutOne(b, k);
    }
  }

  /** Taking out the entry at `k` takes one copy of it out of the multiset. */
  lemma WithoutOne(b: seq<AssetInfo>, k: nat)
    requires k < |b|
    ensures multiset(b[..k] + b[k + 1..]) == multiset(b) - multiset{b[k]}
  {
    var b1, b2 := b[..k], b[k + 1..];
    assert b == b1 + [b[k]] + b2;
    assert multiset(b) == multiset(b1) + multiset{b[k]} + multiset(b2);
    assert multiset(b1 + b2) == multiset(b1) + multiset(b2);
  }

  /** The names of `b` are those of `b` without its `k`-th entry, and that entry's name. */
  lemma NamesWithoutOne(b: seq<AssetInfo>, k: nat)
    requires k < |b|
    ensures multiset(Names(b)) == multiset(Names(b[..k] + b[k + 1..])) + multiset{b[k].name}
  {
    NamesAround(b, k);
    var n1, n2, y := Names(b[..k]), Names(b[k + 1..]), b[k].name;
    assert multiset(n1 + [y] + n2) == multiset(n1) + multiset{y} + multiset(n2);
    assert multiset(n1 + n2) == multiset(n1) + multiset(n2);
  }

  /** The names of `b` around its `k`-th entry. */
  lemma NamesAround(b: seq<AssetInfo>, k: nat)
    requires k < |b|
    ensures Names(b) == Names(b[..k]) + [b[k].name] + Names(b[k + 1..])
    ensures Names(b[..k] + b[k + 1..]) == Names(b[..k]) + Names(b[k + 1..])
  {
    var b1, b2, x := b[..k], b[k + 1..], b[k];
    var c := b[..k + 1];
    assert c[..k] == b1;
    assert Names(c) == Names(b1) + [x.name];
    assert b == c + b2;
    NamesAppend(c, b2);
    NamesAppend(b1, b2);
  }

  // ---------------------------------------------------------------------------
  // What delete_assets returns.
  // ---------------------------------------------------------------------------

  /** The shape of the result: the descendants' names in deletion order, each listed
      descendant exactly once, then `assetId`; a non-folder gives `[assetId]`. */
  lemma DeletionOrderShape(a: Asset, assetId: string)
    ensures var r := DeletionOrder(a, assetId);
      && |r| >= 1 && r[|r| - 1] == assetId
      && (a.kind != Folder ==> r == [assetId])
      && (a.kind == Folder ==>
            var listing := AssetLister.Listing(a.children);
            var order := Ordered(listing);
            && |r| == |listing| + 1
            && |order| == |listing|
            && multiset(r[..|r| - 1]) == multiset(Names(listing))
            && forall k :: 0 <= k < |r| - 1 ==> r[k] == order[k].name)
  {
    var r := DeletionOrder(a, assetId);
    if a.kind == Folder {
      var listing := AssetLister.Listing(a.children);
      OrderedIsPermutation(listing);
      NamesOfPermutation(Ordered(listing), listing);
      NamesAt(Ordered(listing));
      assert r[..|r| - 1] == Names(Ordered(listing));
    }
  }

  /** Asset ids nest: each child's id is one level below its parent's, all the way down. */
  ghost predicate Nested(a: Asset)
  {
    forall k :: 0 <= k < |a.children| ==>
      Level(a.children[k].id) == Level(a.id) + 1 && Nested(a.children[k])
  }

  /** Everything listed under nested assets deeper than `l` is deeper than `l`. */
  lemma {:induction false} ListedDeeper(siblings: seq<Asset>, l: nat)
    requires forall k :: 0 <= k < |siblings| ==> Level(siblings[k].id) > l && Nested(siblings[k])
    ensures forall x :: x in AssetLister.Listing(siblings) ==> Level(x.id) > l
    decreases siblings
  {
    if siblings != [] {
      var front, last := siblings[..|siblings| - 1], siblings[|siblings| - 1];
      assert forall k :: 0 <= k < |front| ==> front[k] == siblings[k];
      ListedDeeper(front, l);
      if last.kind == Folder {
        ListedDeeper(last.children, Level(last.id));
      }
    }
  }

  /** When ids nest, everything under a folder is deleted before the folder: an entry
      listed under `n` comes earlier in the deletion order than `n`'s own entry. */
  lemma ContentsDeletedFirst(list: seq<AssetInfo>, n: Asset, i: nat, j: nat)
    requires Nested(n)
    requires i < |Ordered(list)| && j < |Ordered(list)|
    requires Ordered(list)[j] == Info(n)
    requires Ordered(list)[i] in AssetLister.Listing(n.children)
    ensures i < j
  {
    ListedDeeper(n.children, Level(n.id));
    OrderedDescending(list);
  }
}
