/**
 * The package's own entry points. Its `delete_assets` is a second copy of the utility
 * of the same name over the same `get_assets`. It differs only in taking `asset_id` as a
 * string, with no `Path` conversion, so on a string id it makes the same calls and
 * returns the same list.
 */
module Package {
  import opened EarthEngine
  import AssetLister
  import AssetDeleter

  /**
   * The package-level `delete_assets(asset_id, dry_run)`. Besides the deleter's own
   * contract, it states the shape of the result: `asset_id` last, alone for a non-folder,
   * and for a folder every listed descendant's name exactly once before it, in the
   * deletion order.
   */
  method DeleteAssets(s: Session, assetId: string, dryRun: bool) returns (r: Result<seq<string>>)
    modifies s`log
    ensures r.Err? <==> Lookup(s.roots, assetId).None?
    ensures r.Err? ==> r.error == AssetNotFound && s.log == old(s.log)
    ensures r.Ok? ==> r.value == AssetDeleter.DeletionOrder(Lookup(s.roots, assetId).value, assetId)
    ensures r.Ok? ==> s.log == old(s.log) + AssetDeleter.DeleteCalls(r.value, dryRun)
    ensures r.Ok? ==> |r.value| >= 1 && r.value[|r.value| - 1] == assetId
    ensures r.Ok? && Lookup(s.roots, assetId).value.kind != Folder ==> r.value == [assetId]
    ensures r.Ok? && Lookup(s.roots, assetId).value.kind == Folder ==>
              var listing := AssetLister.Listing(Lookup(s.roots, assetId).value.children);
              && |r.value| == |listing| + 1
              && multiset(r.value[..|r.value| - 1]) == multiset(AssetDeleter.Names(listing))
  {
    r := AssetDeleter.DeleteAssets(s, assetId, dryRun);
    if r.Ok? {
      AssetDeleter.DeletionOrderShape(Lookup(s.roots, assetId).value, assetId);
    }
  }
}
