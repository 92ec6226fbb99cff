/**
 * The remote Earth Engine account, seen from the plugin.
 *
 * Every call the plugin makes goes to a remote asset store and task queue. The model
 * replaces that service by a `Session` object: the asset forest it lists, the task list
 * it reports, and a log of the calls that change remote state (folder creation, export
 * start, asset deletion), in the order they were made.
 */
module EarthEngine {

  datatype Option<+T> = None | Some(value: T)

  /** The failures the plugin surfaces. */
  datatype Error =
    | TaskNotFound      // `wait` given a description no task carries
    | UnsupportedType   // `export_asset` given neither an image nor a feature collection
    | AssetNotFound     // `getAsset` on an id the store does not hold
    | NoAssetRoot       // `getAssetRoots()[0]` on an account without roots

  datatype Result<+T> = Ok(value: T) | Err(error: Error)

  /** The `type` field of an asset record. Only `Folder` is descended into by the lister. */
  datatype AssetType = Folder | Image | ImageCollection | Table

  /** A node of the remote store: its path-like `id`, its resource `name`, its type and
      the assets `listAssets` reports under it, in listing order. */
  datatype Asset = Asset(id: string, name: string, kind: AssetType, children: seq<Asset>)

  /** The record `listAssets` returns for one asset: a dict with keys type, name and id. */
  datatype AssetInfo = AssetInfo(kind: AssetType, name: string, id: string)

  function Info(a: Asset): AssetInfo {
    AssetInfo(a.kind, a.name, a.id)
  }

  /** Task states reported by `task.status()["state"]`. */
  datatype TaskState = Unsubmitted | Ready | Running | Completed | Failed | Cancelled

  /** A remote task: its `config["description"]` and the states its successive
      `status()` calls report. */
  datatype Task = Task(description: string, trace: seq<TaskState>)

  /** The state the status call numbered `k` (from 0) reports. Once the trace is
      exhausted the task stays in its last state; a task with an empty trace has not
      been submitted. */
  function Status(t: Task, k: nat): TaskState
  {
    if k < |t.trace| then t.trace[k]
    else if t.trace == [] then Unsubmitted
    else t.trace[|t.trace| - 1]
  }

  /** The two export task constructors the plugin uses. */
  datatype ExportKind = TableToAsset | ImageToAsset

  /** A call that changes remote state. */
  datatype Call =
    | CreateFolder(path: string)
    | StartExport(kind: ExportKind, assetId: string, description: string)
    | DeleteAsset(id: string)

  /** The tasks a sequence of calls adds to the task list, newest first. */
  function TasksStarted(calls: seq<Call>, progress: string -> seq<TaskState>): seq<Task>
  {
    if calls == [] then []
    else
      var last := calls[|calls| - 1];
      (if last.StartExport? then [Task(last.description, progress(last.description))] else [])
      + TasksStarted(calls[..|calls| - 1], progress)
  }

  lemma {:induction false} TasksStartedAppend(c1: seq<Call>, c2: seq<Call>, progress: string -> seq<TaskState>)
    ensures TasksStarted(c1 + c2, progress) == TasksStarted(c2, progress) + TasksStarted(c1, progress)
    decreases |c2|
  {
    if c2 == [] {
      assert c1 + c2 == c1;
    } else {
      var n := |c2|;
      assert (c1 + c2)[..|c1 + c2| - 1] == c1 + c2[..n - 1];
      assert (c1 + c2)[|c1 + c2| - 1] == c2[n - 1];
      TasksStartedAppend(c1, c2[..n - 1], progress);
    }
  }

  /** `getAsset(id)`: the first node, in pre-order over the forest, whose id is `id`. */
  function Lookup(forest: seq<Asset>, id: string): (r: Option<Asset>)
    ensures r.Some? ==> r.value.id == id && Holds(forest, r.value)
    ensures r.None? ==> forall a :: Holds(forest, a) ==> a.id != id
  {
    if forest == [] then None
    else if forest[0].id == id then Some(forest[0])
    else
      match Lookup(forest[0].children, id)
      case Some(a) => HoldsHead(forest, a); Some(a)
      case None =>
        var r := Lookup(forest[1..], id);
        HoldsSplit(forest);
        r
  }

  /** The forest holds node `a` at some depth. */
  ghost predicate Holds(forest: seq<Asset>, a: Asset)
  {
    exists i :: 0 <= i < |forest| && (forest[i] == a || Holds(forest[i].children, a))
  }

  lemma HoldsHead(forest: seq<Asset>, a: Asset)
    requires forest != [] && Holds(forest[0].children, a)
    ensures Holds(forest, a)
  {
  }

  lemma HoldsSplit(forest: seq<Asset>)
    requires forest != []
    ensures forall a :: Holds(forest, a) ==>
              a == forest[0] || Holds(forest[0].children, a) || Holds(forest[1..], a)
  {
    forall a | Holds(forest, a)
      ensures a == forest[0] || Holds(forest[0].children, a) || Holds(forest[1..], a)
    {
      var i :| 0 <= i < |forest| && (forest[i] == a || Holds(forest[i].children, a));
      if i > 0 {
        assert forest[1..][i - 1] == forest[i];
      }
    }
  }

  /** The remote account the plugin talks to. */
  class Session {
    /** `getAssetRoots()`: the account's root folders, each with everything below it. */
    const roots: seq<Asset>
    /** The states the remote will report for a task started with a given description. */
    const progress: string -> seq<TaskState>
    /** The tasks the account had before this session, newest first. */
    const initialTasks: seq<Task>
    /** The calls made so far that change remote state, oldest first. */
    var log: seq<Call>

    constructor (roots: seq<Asset>, progress: string -> seq<TaskState>, tasks: seq<Task>)
      ensures this.roots == roots && this.progress == progress
      ensures log == [] && Tasks() == tasks
    {
      this.roots := roots;
      this.progress := progress;
      initialTasks := tasks;
      log := [];
    }

    /** `ee.batch.Task.list()`: the tasks this session started, newest first, ahead of
        those the account already had. */
    function Tasks(): seq<Task>
      reads this
    {
      TasksStarted(log, progress) + initialTasks
    }

    /** `ee.data.createAsset({"type": "FOLDER"}, path)`. */
    method CreateFolder(path: string)
      modifies this`log
      ensures log == old(log) + [Call.CreateFolder(path)]
      ensures Tasks() == old(Tasks())
    {
      log := log + [Call.CreateFolder(path)];
      assert log[..|log| - 1] == old(log);
    }

    /** `task.start()` on an export task: the task joins the head of the task list. */
    method StartExport(kind: ExportKind, assetId: string, description: string)
      modifies this`log
      ensures log == old(log) + [Call.StartExport(kind, assetId, description)]
      ensures Tasks() == [Task(description, progress(description))] + old(Tasks())
    {
      log := log + [Call.StartExport(kind, assetId, description)];
      assert log[..|log| - 1] == old(log);
    }

    /** `ee.data.deleteAsset(id)`. */
    method DeleteAsset(id: string)
      modifies this`log
      ensures log == old(log) + [Call.DeleteAsset(id)]
    {
      log := log + [Call.DeleteAsset(id)];
    }
  }
}
