/**
 * The tree initializer (`init_tree`): build a folder tree on Earth Engine from a nested
 * structure, creating a folder for every nested structure and exporting every object,
 * all under a fresh folder named by the prefix in the account's first asset root.
 *
 * The walk is described by `Plan` (a list of entries) and `EntryWalk` (one entry): the
 * calls it makes in order and whether it got to the end. The methods are proved to make
 * exactly those calls, and the lemmas say what any walk looks like.
 */
module TreeInitializer {
  import opened EarthEngine
  import opened Paths
  import AssetExporter

  /** One `name: content` entry of the structure dictionary, in the dictionary's order. */
  datatype Node = Node(name: string, content: Content)

  /** A nested dictionary, or an object to export. */
  datatype Content = Subtree(entries: seq<Node>) | Leaf(obj: AssetExporter.ComputedObject)

  /** The calls a walk makes, oldest first, and whether it finished (`false` when an
      unsupported object raised and stopped it). */
  datatype Walk = Walk(calls: seq<Call>, ok: bool)

  /** The walk `_recursive_create(structure, prefix, folder)` performs, stated the way its
      loop runs: the last entry is handled after all the others, and only if none of them
      raised. */
  function Plan(entries: seq<Node>, prefix: string, folder: string): Walk
    decreases entries
  {
    if entries == [] then Walk([], true)
    else
      var front := Plan(entries[..|entries| - 1], prefix, folder);
      if !front.ok then front
      else
        var step := EntryWalk(entries[|entries| - 1], prefix, folder);
        Walk(front.calls + step.calls, step.ok)
  }

  /** The walk for one entry `e` of the structure in `folder`: create `folder/name` and walk
      the nested structure inside it, or export the object as `folder/name` described
      `prefix_name`, or raise on an object that has no export. */
  function EntryWalk(e: Node, prefix: string, folder: string): Walk
    decreases e
  {
    var path := JoinPath(folder, e.name);
    match e.content
    case Subtree(sub) =>
      var inner := Plan(sub, prefix, path);
      Walk([Call.CreateFolder(path)] + inner.calls, inner.ok)
    case Leaf(obj) =>
      match AssetExporter.ExportKindOf(obj)
      case None => Walk([], false)
      case Some(k) => Walk([Call.StartExport(k, path, Describe(prefix, e.name))], true)
  }

  /** The asset path a call acts on. */
  function Target(c: Call): string
  {
    match c
    case CreateFolder(p) => p
    case StartExport(_, a, _) => a
    case DeleteAsset(id) => id
  }

  /** Every object of the structure, at any depth, is a feature collection or an image. */
  ghost predicate Exportable(entries: seq<Node>)
    decreases entries
  {
    forall i :: 0 <= i < |entries| ==> NodeExportable(entries[i])
  }

  ghost predicate NodeExportable(e: Node)
    decreases e
  {
    match e.content
    case Subtree(sub) => Exportable(sub)
    case Leaf(obj) => AssetExporter.ExportKindOf(obj).Some?
  }

  /** The number of entries of the structure, at any depth. */
  function Size(entries: seq<Node>): nat
    decreases entries
  {
    if entries == [] then 0
    else Size(entries[..|entries| - 1]) + NodeSize(entries[|entries| - 1])
  }

  function NodeSize(e: Node): nat
    decreases e
  {
    1 + match e.content case Subtree(sub) => Size(sub) case Leaf(_) => 0
  }

  /** No name of the structure, at any depth, holds a separator. */
  ghost predicate PlainNames(entries: seq<Node>)
    decreases entries
  {
    forall i :: 0 <= i < |entries| ==> PlainNode(entries[i])
  }

  ghost predicate PlainNode(e: Node)
    decreases e
  {
    && '/' !in e.name
    && match e.content
       case Subtree(sub) => PlainNames(sub)
       case Leaf(_) => true
  }

  /** `_recursive_create(structure, prefix, folder)`: handle the entries in order, and stop
      at the first one that raises, as the exception leaves the loop and every caller. */
  method RecursiveCreate(s: Session, structure: seq<Node>, prefix: string, folder: string)
    returns (ok: bool)
    modifies s`log
    ensures ok == Plan(structure, prefix, folder).ok
    ensures s.log == old(s.log) + Plan(structure, prefix, folder).calls
    decreases structure
  {
    ok := true;
    var i := 0;
    while i < |structure| && ok
      invariant 0 <= i <= |structure|
      invariant ok == Plan(structure[..i], prefix, folder).ok
      invariant s.log == old(s.log) + Plan(structure[..i], prefix, folder).calls
    {
      ok := CreateEntry(s, structure[i], prefix, folder);
      PlanStep(structure, i, prefix, folder);
      i := i + 1;
    }
    if ok {
      assert structure[..i] == structure;
    } else {
      PlanStops(structure, i, prefix, folder);
    }
  }

  /** The body of `_recursive_create`'s loop for one entry: a nested structure gets its
      folder, created before the walk inside it; an object is exported. */
  method CreateEntry(s: Session, node: Node, prefix: string, folder: string) returns (ok: bool)
    modifies s`log
    ensures ok == EntryWalk(node, prefix, folder).ok
    ensures s.log == old(s.log) + EntryWalk(node, prefix, folder).calls
    decreases node
  {
    var assetId := JoinPath(folder, node.name);
    var description := Describe(prefix, node.name);
    match node.content {
      case Subtree(sub) =>
        s.CreateFolder(assetId);
        ok := RecursiveCreate(s, sub, prefix, assetId);
      case Leaf(obj) =>
        var r := AssetExporter.ExportAsset(s, obj, assetId, description);
        ok := r.Ok?;
    }
  }

  /**
   * `init_tree(structure, prefix, root)`: create the folder `<first asset root>/<prefix>`,
   * then walk the structure inside it, and return that folder. The `root` argument is not
   * used: the folder always goes under the account's first asset root. With no asset root
   * nothing is created; an unsupported object ends the walk with an error.
   */
  method InitTree(s: Session, structure: seq<Node>, prefix: string, root: string)
    returns (r: Result<string>)
    modifies s`log
    ensures s.roots == [] ==> r == Err(NoAssetRoot) && s.log == old(s.log)
    ensures s.roots != [] ==>
              var folder := JoinPath(s.roots[0].id, prefix);
              var w := Plan(structure, prefix, folder);
              && s.log == old(s.log) + [Call.CreateFolder(folder)] + w.calls
              && s.Tasks() == TasksStarted(w.calls, s.progress) + old(s.Tasks())
              && r == (if w.ok then Ok(folder) else Err(UnsupportedType))
  {
    if s.roots == [] {
      return Err(NoAssetRoot);
    }
    var rootFolder := JoinPath(s.roots[0].id, prefix);
    s.CreateFolder(rootFolder);
    var ok := RecursiveCreate(s, structure, prefix, rootFolder);
    ghost var made := [Call.CreateFolder(rootFolder)] + Plan(structure, prefix, rootFolder).calls;
    assert s.log == old(s.log) + made;
    TasksAfterFolder(rootFolder, Plan(structure, prefix, rootFolder).calls, s.progress);
    TasksStartedAppend(old(s.log), made, s.progress);
    r := if ok then Ok(rootFolder) else Err(UnsupportedType);
  }

  /** Creating a folder starts no task. */
  lemma TasksAfterFolder(path: string, inner: seq<Call>, progress: string -> seq<TaskState>)
    ensures TasksStarted([Call.CreateFolder(path)] + inner, progress) == TasksStarted(inner, progress)
  {
    TasksStartedAppend([Call.CreateFolder(path)], inner, progress);
    assert [Call.CreateFolder(path)][..0] == [];
  }

  /** One more pass of the loop, when no earlier entry raised. */
  lemma PlanStep(entries: seq<Node>, i: nat, prefix: string, folder: string)
    requires i < |entries|
    requires Plan(entries[..i], prefix, folder).ok
    ensures Plan(entries[..i + 1], prefix, folder)
         == Walk(Plan(entries[..i], prefix, folder).calls + EntryWalk(entries[i], prefix, folder).calls,
                 EntryWalk(entries[i], prefix, folder).ok)
  {
    assert entries[..i + 1][..i] == entries[..i];
  }

  /** Once a walk has raised, the entries after that point change nothing. */
  lemma {:induction false} PlanStops(entries: seq<Node>, i: nat, prefix: string, folder: string)
    requires i <= |entries|
    requires !Plan(entries[..i], prefix, folder).ok
    ensures Plan(entries, prefix, folder) == Plan(entries[..i], prefix, folder)
    decreases |entries| - i
  {
    if i < |entries| {
      assert entries[..i + 1][..i] == entries[..i];
      PlanStops(entries, i + 1, prefix, folder);
    } else {
      assert entries[..i] == entries;
    }
  }

  /** The walk gets to the end exactly when every object in the structure is exportable,
      and then it makes one call per entry: a folder creation or an export. */
  lemma {:induction false} PlanFinishes(entries: seq<Node>, prefix: string, folder: string)
    ensures Plan(entries, prefix, folder).ok <==> Exportable(entries)
    ensures Plan(entries, prefix, folder).ok ==> |Plan(entries, prefix, folder).calls| == Size(entries)
    decreases entries
  {
    if entries != [] {
      var n := |entries|;
      var front := entries[..n - 1];
      PlanFinishes(front, prefix, folder);
      EntryFinishes(entries[n - 1], prefix, folder);
      assert forall i :: 0 <= i < n - 1 ==> front[i] == entries[i];
      assert Exportable(entries) <==> Exportable(front) && NodeExportable(entries[n - 1]);
    }
  }

  /** The same for one entry. */
  lemma {:induction false} EntryFinishes(e: Node, prefix: string, folder: string)
    ensures EntryWalk(e, prefix, folder).ok <==> NodeExportable(e)
    ensures EntryWalk(e, prefix, folder).ok ==> |EntryWalk(e, prefix, folder).calls| == NodeSize(e)
    decreases e
  {
    match e.content {
      case Subtree(sub) => PlanFinishes(sub, prefix, JoinPath(folder, e.name));
      case Leaf(_) =>
    }
  }

  /** Every call of the walk acts strictly inside `folder`. */
  lemma {:induction false} PlanInside(entries: seq<Node>, prefix: string, folder: string)
    ensures forall c :: c in Plan(entries, prefix, folder).calls ==> folder + "/" <= Target(c)
    decreases entries
  {
    if entries != [] {
      var n := |entries|;
      PlanInside(entries[..n - 1], prefix, folder);
      EntryInside(entries[n - 1], prefix, folder);
    }
  }

  /** The same for one entry. */
  lemma {:induction false} EntryInside(e: Node, prefix: string, folder: string)
    ensures forall c :: c in EntryWalk(e, prefix, folder).calls ==> folder + "/" <= Target(c)
    decreases e
  {
    var path := JoinPath(folder, e.name);
    assert folder + "/" <= path;
    match e.content {
      case Subtree(sub) =>
        PlanInside(sub, prefix, path);
        forall c | c in Plan(sub, prefix, path).calls
          ensures folder + "/" <= Target(c)
        {
          PrefixTransitive(folder + "/", path, Target(c));
        }
      case Leaf(_) =>
    }
  }

  lemma PrefixTransitive(a: string, b: string, c: string)
    requires a <= b && b <= c
    ensures a <= c
  {
    assert b[..|a|] == a;
    assert c[..|b|][..|a|] == c[..|a|];
  }

  /** Entry `e` of the structure sits, at any depth, in the folder whose path is `p`. */
  ghost predicate Placed(entries: seq<Node>, folder: string, p: string, e: Node)
    decreases entries
  {
    exists i :: 0 <= i < |entries| && PlacedIn(entries[i], folder, p, e)
  }

  /** `e` is the entry `n` itself, in `folder`, or sits below it. */
  ghost predicate PlacedIn(n: Node, folder: string, p: string, e: Node)
    decreases n
  {
    || (n == e && p == folder)
    || match n.content
       case Subtree(sub) => Placed(sub, JoinPath(folder, n.name), p, e)
       case Leaf(_) => false
  }

  /** The call the loop body makes for entry `e` in folder `p` itself: create `p/key` for a
      nested structure, export the object as `p/key` described `prefix_key`, or none when
      the object cannot be exported. */
  function CallFor(e: Node, prefix: string, p: string): Option<Call>
  {
    var path := JoinPath(p, e.name);
    match e.content
    case Subtree(_) => Some(Call.CreateFolder(path))
    case Leaf(obj) =>
      match AssetExporter.ExportKindOf(obj)
      case None => None
      case Some(k) => Some(Call.StartExport(k, path, Describe(prefix, e.name)))
  }

  /** Every call of the walk is the call of some entry of the structure, made in the folder
      that entry sits in. */
  lemma {:induction false} PlanSound(entries: seq<Node>, prefix: string, folder: string)
    ensures forall c :: c in Plan(entries, prefix, folder).calls ==>
              exists p, e :: Placed(entries, folder, p, e) && CallFor(e, prefix, p) == Some(c)
    decreases entries
  {
    if entries != [] {
      var n := |entries|;
      var front, last := entries[..n - 1], entries[n - 1];
      PlanSound(front, prefix, folder);
      EntrySound(last, prefix, folder);
      forall c | c in Plan(entries, prefix, folder).calls
        ensures exists p, e :: Placed(entries, folder, p, e) && CallFor(e, prefix, p) == Some(c)
      {
        if c in Plan(front, prefix, folder).calls {
          var p, e :| Placed(front, folder, p, e) && CallFor(e, prefix, p) == Some(c);
          var i :| 0 <= i < |front| && PlacedIn(front[i], folder, p, e);
          assert entries[i] == front[i];
          assert Placed(entries, folder, p, e);
        } else {
          var p, e :| PlacedIn(last, folder, p, e) && CallFor(e, prefix, p) == Some(c);
          assert Placed(entries, folder, p, e);
        }
      }
    }
  }

  /** The same for one entry. */
  lemma {:induction false} EntrySound(n: Node, prefix: string, folder: string)
    ensures forall c :: c in EntryWalk(n, prefix, folder).calls ==>
              exists p, e :: PlacedIn(n, folder, p, e) && CallFor(e, prefix, p) == Some(c)
    decreases n
  {
    assert PlacedIn(n, folder, folder, n);
    match n.content {
      case Subtree(sub) =>
        var path := JoinPath(folder, n.name);
        PlanSound(sub, prefix, path);
        forall c | c in Plan(sub, prefix, path).calls
          ensures exists p, e :: PlacedIn(n, folder, p, e) && CallFor(e, prefix, p) == Some(c)
        {
          var p, e :| Placed(sub, path, p, e) && CallFor(e, prefix, p) == Some(c);
          assert PlacedIn(n, folder, p, e);
        }
      case Leaf(_) =>
    }
  }

  /** A walk that gets to the end makes the call of every entry of the structure, in the
      folder that entry sits in: each object is exported as `<its folder>/<key>` described
      `prefix_key`, and each nested structure gets its folder. */
  lemma {:induction false} PlanComplete(entries: seq<Node>, prefix: string, folder: string,
                                        p: string, e: Node)
    requires Plan(entries, prefix, folder).ok
    requires Placed(entries, folder, p, e)
    ensures CallFor(e, prefix, p).Some?
    ensures CallFor(e, prefix, p).value in Plan(entries, prefix, folder).calls
    decreases entries
  {
    var n := |entries|;
    var front, last := entries[..n - 1], entries[n - 1];
    var i :| 0 <= i < n && PlacedIn(entries[i], folder, p, e);
    assert Plan(front, prefix, folder).ok;
    if i == n - 1 {
      EntryComplete(last, prefix, folder, p, e);
    } else {
      assert front[i] == entries[i];
      PlanComplete(front, prefix, folder, p, e);
    }
  }

  /** The same for one entry. */
  lemma {:induction false} EntryComplete(n: Node, prefix: string, folder: string, p: string, e: Node)
    requires EntryWalk(n, prefix, folder).ok
    requires PlacedIn(n, folder, p, e)
    ensures CallFor(e, prefix, p).Some?
    ensures CallFor(e, prefix, p).value in EntryWalk(n, prefix, folder).calls
    decreases n
  {
    if !(n == e && p == folder) {
      match n.content {
        case Subtree(sub) => PlanComplete(sub, prefix, JoinPath(folder, n.name), p, e);
      }
    }
  }

  /** The parent folder of the `j`-th call's target is `folder` itself or a folder created
      by an earlier call. */
  ghost predicate ParentExists(calls: seq<Call>, j: int, folder: string)
    requires 0 <= j < |calls|
  {
    exists parent, name ::
      && Target(calls[j]) == JoinPath(parent, name)
      && '/' !in name
      && (parent == folder || exists i :: 0 <= i < j && calls[i] == Call.CreateFolder(parent))
  }

  /** Folders are created before anything is put in them: when no name holds a separator,
      every target's parent is the starting folder or was created earlier in the walk. */
  lemma {:induction false} ParentsFirst(entries: seq<Node>, prefix: string, folder: string)
    requires PlainNames(entries)
    ensures forall j :: 0 <= j < |Plan(entries, prefix, folder).calls| ==>
              ParentExists(Plan(entries, prefix, folder).calls, j, folder)
    decreases entries
  {
    if entries != [] {
      var n := |entries|;
      var front := entries[..n - 1];
      assert PlainNames(front) by {
        assert forall i :: 0 <= i < n - 1 ==> front[i] == entries[i];
      }
      ParentsFirst(front, prefix, folder);
      var f := Plan(front, prefix, folder).calls;
      if Plan(front, prefix, folder).ok {
        var step := EntryWalk(entries[n - 1], prefix, folder).calls;
        EntryParentsFirst(entries[n - 1], prefix, folder);
        forall j | 0 <= j < |f + step|
          ensures ParentExists(f + step, j, folder)
        {
          if j < |f| {
            ParentExistsExtended(f, step, j, folder);
          } else {
            ParentExistsShifted(f, step, j - |f|, folder);
          }
        }
      }
    }
  }

  /** The same for one entry, whose own target has `folder` as its parent. */
  lemma {:induction false} EntryParentsFirst(e: Node, prefix: string, folder: string)
    requires PlainNode(e)
    ensures forall j :: 0 <= j < |EntryWalk(e, prefix, folder).calls| ==>
              ParentExists(EntryWalk(e, prefix, folder).calls, j, folder)
    decreases e
  {
    var path := JoinPath(folder, e.name);
    var calls := EntryWalk(e, prefix, folder).calls;
    if |calls| > 0 {
      assert Target(calls[0]) == JoinPath(folder, e.name);
      assert ParentExists(calls, 0, folder);
    }
    match e.content {
      case Subtree(sub) =>
        var inner := Plan(sub, prefix, path).calls;
        ParentsFirst(sub, prefix, path);
        forall j | 1 <= j < |calls|
          ensures ParentExists(calls, j, folder)
        {
          InsideCreatedFolder(path, inner, j - 1, folder);
        }
      case Leaf(_) =>
    }
  }

  /** A call keeps its parent when more calls follow it. */
  lemma ParentExistsExtended(calls: seq<Call>, more: seq<Call>, j: int, folder: string)
    requires 0 <= j < |calls| && ParentExists(calls, j, folder)
    ensures ParentExists(calls + more, j, folder)
  {
    var parent, name :| && Target(calls[j]) == JoinPath(parent, name) && '/' !in name
      && (parent == folder || exists i :: 0 <= i < j && calls[i] == Call.CreateFolder(parent));
    assert (calls + more)[j] == calls[j];
    if parent != folder {
      var i :| 0 <= i < j && calls[i] == Call.CreateFolder(parent);
      assert (calls + more)[i] == calls[i];
    }
  }

  /** A call keeps its parent when other calls come before it. */
  lemma ParentExistsShifted(before: seq<Call>, calls: seq<Call>, m: int, folder: string)
    requires 0 <= m < |calls| && ParentExists(calls, m, folder)
    ensures ParentExists(before + calls, |before| + m, folder)
  {
    var parent, name :| && Target(calls[m]) == JoinPath(parent, name) && '/' !in name
      && (parent == folder || exists i :: 0 <= i < m && calls[i] == Call.CreateFolder(parent));
    assert (before + calls)[|before| + m] == calls[m];
    if parent != folder {
      var i :| 0 <= i < m && calls[i] == Call.CreateFolder(parent);
      assert (before + calls)[|before| + i] == calls[i];
    }
  }

  /** A call whose parent is `path` or created inside it keeps its parent once `path` is
      created just before. */
  lemma InsideCreatedFolder(path: string, inner: seq<Call>, m: int, folder: string)
    requires 0 <= m < |inner| && ParentExists(inner, m, path)
    ensures ParentExists([Call.CreateFolder(path)] + inner, m + 1, folder)
  {
    var calls := [Call.CreateFolder(path)] + inner;
    var parent, name :| && Target(inner[m]) == JoinPath(parent, name) && '/' !in name
      && (parent == path || exists i :: 0 <= i < m && inner[i] == Call.CreateFolder(parent));
    assert calls[m + 1] == inner[m];
    var i: int;
    if parent == path {
      i := 0;
      assert calls[0] == Call.CreateFolder(parent);
    } else {
      var k :| 0 <= k < m && inner[k] == Call.CreateFolder(parent);
      i := k + 1;
      assert calls[i] == inner[k];
    }
    assert 0 <= i < m + 1 && calls[i] == Call.CreateFolder(parent);
    assert Target(calls[m + 1]) == JoinPath(parent, name);
  }

  /** The example of `init_tree`'s documentation: one folder holding an image and a
      feature collection, with the prefix "toto". */
  lemma DocumentedExample(rootFolder: string)
    ensures
      var structure := [Node("folder_1", Subtree([
                          Node("image", Leaf(AssetExporter.Image)),
                          Node("fc", Leaf(AssetExporter.FeatureCollection))]))];
      Plan(structure, "toto", rootFolder) == Walk([
        Call.CreateFolder(rootFolder + "/folder_1"),
        Call.StartExport(ImageToAsset, rootFolder + "/folder_1/image", "toto_image"),
        Call.StartExport(TableToAsset, rootFolder + "/folder_1/fc", "toto_fc")], true)
  {
    var image := Node("image", Leaf(AssetExporter.Image));
    var fc := Node("fc", Leaf(AssetExporter.FeatureCollection));
    var folder1 := JoinPath(rootFolder, "folder_1");
    assert folder1 == rootFolder + "/folder_1";
    assert JoinPath(folder1, "image") == rootFolder + "/folder_1/image";
    assert JoinPath(folder1, "fc") == rootFolder + "/folder_1/fc";
    assert Describe("toto", "image") == "toto_image";
    assert Describe("toto", "fc") == "toto_fc";
    assert [image, fc][..1] == [image];
    assert [image][..0] == [];
    assert Plan([image], "toto", folder1).calls
        == [Call.StartExport(ImageToAsset, JoinPath(folder1, "image"), "toto_image")];
    assert EntryWalk(fc, "toto", folder1)
        == Walk([Call.StartExport(TableToAsset, JoinPath(folder1, "fc"), "toto_fc")], true);
    var sub := Plan([image, fc], "toto", folder1);
    assert sub.calls == [Call.StartExport(ImageToAsset, JoinPath(folder1, "image"), "toto_image"),
                         Call.StartExport(TableToAsset, JoinPath(folder1, "fc"), "toto_fc")];
    var structure := [Node("folder_1", Subtree([image, fc]))];
    assert structure[..0] == [];
  }
}
