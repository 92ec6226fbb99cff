# pytest-gee, modelled in Dafny

pytest-gee is a pytest plugin for tests that run against a Google Earth Engine account.
Its helpers do the following:
- build a folder tree of test assets under the account's first asset root (`init_tree`);
- export images and feature collections into it (`export_asset`);
- wait for the export tasks (`wait`, `get_task`);
- list a folder recursively (`get_assets`);
- delete a folder and everything below it, deepest level first (`delete_assets`).

This project models those helpers and proves what they do.

The remote account is the class `EarthEngine.Session`:
- `roots` is the asset forest that `getAssetRoots`, `getAsset` and `listAssets` read.
- `progress` gives the states the remote reports for a task started with a given description.
- `log` records every call that changes remote state, in order: folder creation, export start and asset deletion.
- `Tasks()` is what `ee.batch.Task.list()` returns. It is derived from the log: the tasks this session started, newest first, ahead of those the account already had.

`export_asset`, `init_tree` and `delete_assets` are methods over a `Session`. Each is proved to make exactly the calls of a specification function of its inputs. `get_task` and `wait` take the task list, and `get_assets` takes the folder node; each is proved against a specification function of those inputs. The lemmas then say what those calls and results look like:
- the listing is a pre-order walk;
- the tree walk creates every folder before it puts anything in it;
- the deletion order is a permutation of the listing whose levels never increase and which keeps the listing order within a level;
- a dry run deletes nothing, and a real run deletes exactly the reported ids, in order.

Time is an abstract clock that only the five-second sleeps advance. The source's docstring says that a timeout of 0 means "ignored". The code instead never enters its polling loop when the timeout is 0 or less, and returns `UNSUBMITTED` (`pytest_gee/utils.py:32-36`). The model follows the code: `TaskWaiter.Wait` returns `Unsubmitted` whenever `timeout <= 0`.

Files:
- `earth_engine.dfy`: the remote account, assets, tasks and calls.
- `paths.dfy`: `/`-splitting, `parent/name` paths and `prefix_name` descriptions.
- `task_waiter.dfy`: `get_task` and `wait`.
- `asset_lister.dfy`: `get_assets`.
- `asset_exporter.dfy`: `export_asset`.
- `tree_initializer.dfy`: `init_tree`.
- `asset_deleter.dfy`: `delete_assets` in `pytest_gee/utils.py`.
- `package.dfy`: the copy of `delete_assets` in `pytest_gee/__init__.py`.

## Model

| member | source | states |
|---|---|---|
| `EarthEngine.Lookup` | pytest_gee/utils.py:203 | `getAsset(id)` finds a node with that id that the forest holds, or fails only when no node of the forest has that id |
| `EarthEngine.TasksStartedAppend` | pytest_gee/utils.py:55 | the task list is newest first: tasks started by later calls come ahead of those started by earlier ones |
| `EarthEngine.Session.CreateFolder` | pytest_gee/utils.py:156 | `createAsset` of a folder is logged and starts no task |
| `EarthEngine.Session.StartExport` | pytest_gee/utils.py:120 | `task.start()` is logged and puts the new task, with its description, at the head of `Task.list()` |
| `EarthEngine.Session.DeleteAsset` | pytest_gee/utils.py:200 | `deleteAsset(id)` is logged once |
| `Paths.Split` | pytest_gee/utils.py:214 | `id.split("/")` always has at least one piece, so every level is at least 1 |
| `Paths.JoinSplit` | pytest_gee/utils.py:214 | joining the pieces of `split("/")` with `/` gives back the id, so no character is lost when measuring levels |
| `Paths.SplitPiecesHaveNoSlash` | pytest_gee/utils.py:214 | no piece of the split holds a separator |
| `Paths.LevelCountsSlashes` | pytest_gee/utils.py:214 | the level of an id is its number of `/` plus one |
| `Paths.LevelOfJoin` | pytest_gee/utils.py:153 | the level of `parent/name` is the sum of the two levels, and exactly one below `parent` when `name` holds no `/` |
| `TaskWaiter.FindTask` | pytest_gee/utils.py:54-60 | none exactly when no task has the description; otherwise the found task has it and no earlier task does |
| `TaskWaiter.GetTask` | pytest_gee/utils.py:45-60 | the scan with early `break` returns the first matching task, or none |
| `TaskWaiter.PollBudget` | pytest_gee/utils.py:36-37 | the number of five-second polls that start before the timeout: they cover the timeout and the last one starts below it |
| `TaskWaiter.Wait` | pytest_gee/utils.py:16-42 | an unknown description fails before any poll. Otherwise it polls at most the budget and never goes on past a COMPLETED or FAILED state; stopping early means that state was seen. It returns the last polled state, or UNSUBMITTED when no poll ran, which is always the case for a timeout of 0 or less |
| `AssetLister.RecursiveGet` | pytest_gee/utils.py:77-82 | appends the listing of the folder's children to the accumulated list |
| `AssetLister.GetAssets` | pytest_gee/utils.py:63-84 | returns the listing under the folder; an empty folder gives `[]` |
| `AssetLister.ListingAppend` | pytest_gee/utils.py:78 | siblings are listed in the store's order, each run of siblings after the one before it |
| `AssetLister.PreOrder` | pytest_gee/utils.py:78-81 | each entry is listed right before everything under it, between its earlier and later siblings; nothing is listed under a non-folder |
| `AssetLister.ListingComplete` | pytest_gee/utils.py:77-82 | every asset reached through folders is listed |
| `AssetLister.ListingSound` | pytest_gee/utils.py:77-82 | every listed record is that of an asset reached through folders only |
| `AssetExporter.ExportKindOf` | pytest_gee/utils.py:103-117 | a feature collection goes to the table export, an image to the image export, and anything else has no export |
| `AssetExporter.ExportAsset` | pytest_gee/utils.py:87-123 | an unsupported object is refused with nothing started. Otherwise exactly one export of `asset_id` with `description` is started, its task heads the task list, and `asset_id` is returned unchanged |
| `TreeInitializer.RecursiveCreate` | pytest_gee/utils.py:151-159 | `_recursive_create` makes exactly the calls of the walk over the entries, in order, and reports whether it got to the end |
| `TreeInitializer.CreateEntry` | pytest_gee/utils.py:152-159 | for one entry: a nested dict gets its folder `parent/name` created before the walk inside it, and an object is exported as `parent/name` with description `prefix_name` |
| `TreeInitializer.InitTree` | pytest_gee/utils.py:126-169 | fails with no asset root. Otherwise it creates `<first root>/<prefix>`, ignoring `root`, then walks the structure inside it; the tasks it adds are exactly the walk's exports, and it returns that folder unless an object could not be exported |
| `TreeInitializer.PlanStops` | pytest_gee/utils.py:151-159 | once an entry has raised, the later entries make no calls |
| `TreeInitializer.PlanFinishes` | pytest_gee/utils.py:151-159 | the walk finishes exactly when every object at any depth can be exported, and then makes one call per entry |
| `TreeInitializer.PlanInside` | pytest_gee/utils.py:153 | every folder created and every asset exported lies strictly inside the starting folder |
| `TreeInitializer.PlanSound` | pytest_gee/utils.py:151-159 | every call of the walk is the call of one entry of the structure, made in the folder where that entry sits: `<folder>/<key>` is created for a nested dict, and an object is exported as `<folder>/<key>` described `prefix_<key>` |
| `TreeInitializer.PlanComplete` | pytest_gee/utils.py:151-159 | a walk that finishes makes that call for every entry at any depth: each object is exported as `<its folder>/<key>` described `prefix_<key>`, and each nested dict gets its folder |
| `TreeInitializer.ParentsFirst` | pytest_gee/utils.py:155-157 | with slash-free names, every target's parent is the starting folder or a folder created by an earlier call |
| `TreeInitializer.DocumentedExample` | pytest_gee/utils.py:141-148 | the documented example gives one folder creation and then the image and table exports, with descriptions `toto_image` and `toto_fc` |
| `AssetDeleter.Delete` | pytest_gee/utils.py:198-200 | the `delete` closure appends the id to the output and deletes it outside a dry run only |
| `AssetDeleter.BucketByLevel` | pytest_gee/utils.py:212-216 | there is a key for exactly the levels that occur, and each holds the entries at that level in listing order; the largest level is the first key in reverse sorted order |
| `AssetDeleter.DeleteBucket` | pytest_gee/utils.py:221-222 | deletes a bucket's entries by `name`, in bucket order |
| `AssetDeleter.DeleteDeepestFirst` | pytest_gee/utils.py:219-222 | emits the buckets from the deepest level to level 1, skipping absent levels, and deletes exactly what it emits |
| `AssetDeleter.BucketNamesOfList` | pytest_gee/utils.py:212-222 | the dictionary the bucketing loop builds, read deepest first, gives the names of the listing in deletion order |
| `AssetDeleter.DeleteContents` | pytest_gee/utils.py:205-222 | a folder's descendants are reported by name in deletion order, and deleted in that order |
| `AssetDeleter.DeleteAssets` | pytest_gee/utils.py:172-227 | fails only when the store holds no such id. Otherwise it returns the descendants' names deepest first, then `asset_id`; a real run deletes exactly those ids in that order, and a dry run deletes nothing |
| `AssetDeleter.MaxLevelBounds` | pytest_gee/utils.py:219 | the first key after the reverse sort bounds every level and is the level of some entry |
| `AssetDeleter.OrderedDescending` | pytest_gee/utils.py:218-222 | the level never increases along the deletion order |
| `AssetDeleter.OrderedKeepsLevelOrder` | pytest_gee/utils.py:213-222 | within each level the deletion order is the listing order |
| `AssetDeleter.OrderedIsPermutation` | pytest_gee/utils.py:212-222 | the deletion order holds each listed entry exactly as often as the listing does |
| `AssetDeleter.DeletionOrderShape` | pytest_gee/utils.py:205-227 | `asset_id` comes last, alone for a non-folder. For a folder there is one name per listed descendant before it, each listed name exactly once, in deletion order |
| `AssetDeleter.ContentsDeletedFirst` | pytest_gee/utils.py:210-222 | when ids nest, everything under a folder is deleted before the folder itself |
| `Package.DeleteAssets` | pytest_gee/__init__.py:74-126 | the package copy has the same result and calls as the utility. `asset_id` comes last, alone for a non-folder; a folder's listed descendants each appear exactly once before it |

## Left out

- `init_ee_from_token` (`pytest_gee/__init__.py:19-43`) is not modelled. It reads an environment variable, writes a credentials file and opens the network session, which is all I/O.
- The `wait` of `pytest_gee/__init__.py:46-71` is not modelled. It imports `time` from `datetime`, so its sleeps and clock reads would fail; only the `wait` of `pytest_gee/utils.py` is modelled.
- Real sleeping and the wall clock are replaced by an abstract clock that only the five-second sleeps advance. The time the remote calls themselves take is not modelled.
- The export constructors and their `region`/`geometry` arguments are foreign calls. The model records only the kind of export, the asset id and the description.
- The contents of exported objects are not modelled, only whether each is an image, a feature collection or something else.
- Remote failures are not modelled beyond these: an id `getAsset` cannot find, an account without asset roots, a description no task carries, and an unsupported object. Already-exists and permission errors are not modelled.
- `dry_run` is a plain bool with no default. Both copies of `delete_assets` default it to `True` (`pytest_gee/utils.py:172`, `pytest_gee/__init__.py:74`); callers of the model always pass it. The source tests `dry_run is True`, so a truthy value that is not `True` (such as `1`) would delete; that case cannot arise in the model.
- Path inputs (`Path` objects turned into posix strings) and `PurePosixPath` normalisation of `parent/name` are not modelled. Ids are plain strings, and paths are joined as `parent + "/" + name`. So `TreeInitializer.PlanInside` ("strictly inside the starting folder") holds for this string join only. With `PurePosixPath(folder) / name`, a key starting with `/` gives an absolute path outside the folder, and an empty key gives the folder itself.
- Creating and deleting assets is recorded in the call log. The asset forest itself is not rewritten, so a listing made after a creation in the same session does not see it.
- `Task.list()` is assumed to return tasks newest first, so the task `wait` finds by description is the one just started.
- Sorting the dictionary's keys in reverse is modelled as a countdown from the deepest level to level 1, skipping levels without a key; levels are always at least 1.
- Dictionary keys are unique in the source. The model's structure is a sequence of entries and does not enforce distinct names.
- `TreeInitializer.ParentsFirst` is stated only for structures whose names hold no `/`. With such a name, `parent/name` can have a parent folder that was never created.
- `tests/` and `pytest_gee/plugin.py` are pytest fixtures that need a live account; they are not part of this model.
