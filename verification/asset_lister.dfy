/**
 * The asset lister (`get_assets`): a recursive pre-order walk that lists the assets under
 * a folder, descending only into the entries whose type is FOLDER.
 *
 * `ee.data.listAssets({"parent": p})["assets"]` is modelled as the records of the children
 * of the node `p` names, in the order the store lists them.
 */
module AssetLister {
  import opened EarthEngine

  /** What the walk appends for one listed asset: its record, then, for a folder,
      everything under it. */
  function Block(a: Asset): seq<AssetInfo>
  {
    [Info(a)] + (if a.kind == Folder then Listing(a.children) else [])
  }

  /** What the walk appends for a list of sibling assets, one block after the other
      (stated the way the loop builds it: the last sibling's block comes last). */
  function Listing(siblings: seq<Asset>): seq<AssetInfo>
  {
    if siblings == [] then []
    else Listing(siblings[..|siblings| - 1]) + Block(siblings[|siblings| - 1])
  }

  /** `_recursive_get(folder, asset_list)`: appends the listing under `folder` to the
      accumulated list and returns it. */
  method RecursiveGet(folder: Asset, assetList: seq<AssetInfo>) returns (r: seq<AssetInfo>)
    ensures r == assetList + Listing(folder.children)
    decreases folder
  {
    r := assetList;
    var assets := folder.children;
    for i := 0 to |assets|
      invariant r == assetList + Listing(assets[..i])
    {
      var asset := assets[i];
      assert assets[..i + 1][..i] == assets[..i];
      r := r + [Info(asset)];
      if asset.kind == Folder {
        r := RecursiveGet(asset, r);
      }
    }
    assert assets[..|assets|] == assets;
  }

  /** `get_assets(folder)`. */
  method GetAssets(folder: Asset) returns (r: seq<AssetInfo>)
    ensures r == Listing(folder.children)
    ensures folder.children == [] ==> r == []
  {
    r := RecursiveGet(folder, []);
  }

  /** Listing a run of siblings is listing its two halves one after the other: siblings
      keep the store's order. */
  lemma {:induction false} ListingAppend(xs: seq<Asset>, ys: seq<Asset>)
    ensures Listing(xs + ys) == Listing(xs) + Listing(ys)
    decreases |ys|
  {
    if ys == [] {
      assert xs + ys == xs;
    } else {
      var n := |ys|;
      var front, last := ys[..n - 1], ys[n - 1];
      assert (xs + ys)[..|xs + ys| - 1] == xs + front;
      assert (xs + ys)[|xs + ys| - 1] == last;
      assert Listing(xs + ys) == Listing(xs + front) + Block(last);
      ListingAppend(xs, front);
      assert Listing(ys) == Listing(front) + Block(last);
    }
  }

  /** Pre-order: wherever an asset stands among its siblings, the listing holds the
      siblings before it, then its record followed at once by everything under it (nothing
      under a non-folder), then the siblings after it. */
  lemma PreOrder(before: seq<Asset>, a: Asset, after: seq<Asset>)
    ensures Listing(before + [a] + after) ==
              Listing(before) + [Info(a)]
              + (if a.kind == Folder then Listing(a.children) else [])
              + Listing(after)
  {
    ListingAppend(before + [a], after);
    ListingAppend(before, [a]);
    assert [a][..0] == [];
    assert Listing([a]) == Block(a);
  }

  /** The node `a` is reached by the walk: it is one of the siblings, or lies below a
      sibling through folders only. */
  ghost predicate Reached(siblings: seq<Asset>, a: Asset)
  {
    exists i :: 0 <= i < |siblings| &&
      (siblings[i] == a || (siblings[i].kind == Folder && Reached(siblings[i].children, a)))
  }

  /** Every asset the walk reaches is listed. */
  lemma {:induction false} ListingComplete(siblings: seq<Asset>, a: Asset)
    requires Reached(siblings, a)
    ensures Info(a) in Listing(siblings)
    decreases siblings
  {
    var i :| 0 <= i < |siblings| &&
      (siblings[i] == a || (siblings[i].kind == Folder && Reached(siblings[i].children, a)));
    assert siblings == siblings[..i] + [siblings[i]] + siblings[i + 1..];
    PreOrder(siblings[..i], siblings[i], siblings[i + 1..]);
    if siblings[i] != a {
      ListingComplete(siblings[i].children, a);
    }
  }

  /** Everything listed is the record of an asset the walk reaches: nothing below an
      image, an image collection or a table is listed. */
  lemma {:induction false} ListingSound(siblings: seq<Asset>, x: AssetInfo)
    requires x in Listing(siblings)
    ensures exists a :: Reached(siblings, a) && Info(a) == x
    decreases siblings
  {
    var n := |siblings|;
    var last := siblings[n - 1];
    var front := siblings[..n - 1];
    if x in Listing(front) {
      ListingSound(front, x);
      var a :| Reached(front, a) && Info(a) == x;
      var i :| 0 <= i < |front| &&
        (front[i] == a || (front[i].kind == Folder && Reached(front[i].children, a)));
      assert siblings[i] == front[i];
      assert Reached(siblings, a);
    } else if x == Info(last) {
      assert Reached(siblings, last);
    } else {
      assert last.kind == Folder && x in Listing(last.children);
      ListingSound(last.children, x);
      var a :| Reached(last.children, a) && Info(a) == x;
      assert Reached(siblings, a);
    }
  }
}
