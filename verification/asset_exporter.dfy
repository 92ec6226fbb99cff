/**
 * The asset exporter (`export_asset`): start the export task that suits the object, wait
 * for it, and return the target path.
 */
module AssetExporter {
  import opened EarthEngine
  import TaskWaiter

  /** The computed objects a test may ask to export. Only feature collections and images
      have an export constructor. */
  datatype ComputedObject = FeatureCollection | Image | OtherObject(typeName: string)

  /** The export constructor `export_asset` dispatches to, if the object has one. */
  function ExportKindOf(obj: ComputedObject): (k: Option<ExportKind>)
    ensures k == Some(TableToAsset) <==> obj.FeatureCollection?
    ensures k == Some(ImageToAsset) <==> obj.Image?
    ensures k.None? <==> obj.OtherObject?
  {
    match obj
    case FeatureCollection => Some(TableToAsset)
    case Image => Some(ImageToAsset)
    case OtherObject(_) => None
  }

  /**
   * `export_asset(object, asset_id, description)`. An unsupported object is refused before
   * anything is started. Otherwise one export task, described by `description`, is started
   * at the head of the task list, `wait` is called on that description with its default
   * timeout (its result is ignored, as in the source), and `asset_id` is returned as given.
   */
  method ExportAsset(s: Session, obj: ComputedObject, assetId: string, description: string)
    returns (r: Result<string>)
    modifies s`log
    ensures ExportKindOf(obj).None? ==> r == Err(UnsupportedType) && s.log == old(s.log)
    ensures ExportKindOf(obj).Some? ==>
              && r == Ok(assetId)
              && s.log == old(s.log) + [Call.StartExport(ExportKindOf(obj).value, assetId, description)]
              && s.Tasks() == [Task(description, s.progress(description))] + old(s.Tasks())
  {
    var kind: ExportKind;
    match obj {
      case FeatureCollection => kind := TableToAsset;
      case Image => kind := ImageToAsset;
      case OtherObject(_) => return Err(UnsupportedType);
    }
    s.StartExport(kind, assetId, description);
    // The task `wait` resolves is the one just started: it heads the task list.
    assert TaskWaiter.Resolve(TaskWaiter.Described(description), s.Tasks())
        == Some(Task(description, s.progress(description)));
    var state, polls := TaskWaiter.Wait(TaskWaiter.Described(description), s.Tasks(), TaskWaiter.DefaultTimeout);
    r := Ok(assetId);
  }
}
