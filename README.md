# Build-time mesh batching, modelled in Dafny

This project models the decision layer of `MergeMeshesBuildTime.cs`, a Unity editor step that
batches the meshes of a background prefab. It takes the mesh filters that
`GetComponentsInChildren<MeshFilter>()` returns for the prefab root: those of active nodes, the
root's own filter included, in discovery order (the model takes that list as given). It
splits the filters into three shadow classes (ShadowsOnly, On, Off); filters of any other mode are
dropped. It handles the classes in that order. For each class it:

- groups the usable filters by their first shared material;
- packs each group into bins using a greedy skip-and-retry scan; a bin's vertex total stays below 65536,
  except for a bin holding a single filter that reaches 65536 vertices on its own;
- makes one new node per bin;
- hangs the new nodes under the prefab root;
- destroys the original nodes.

At the end it saves the prefab.

The model keeps the source's own shape:

- The loops that build lists become methods with loop invariants:
  - the classifier, `Classify.ClassifyByShadowMode`;
  - the dictionary fill, `Grouping.GroupByMaterial`;
  - the packer's inner scan with `RemoveAt(i); i--`, `Packing.TakeBin`.
- Each of those methods is proved equal to a pure function: the classifier to `Classify.OfMode`,
  the dictionary fill to `Grouping.MaterialOrder` and `Grouping.WithMaterial`, and the packer's
  scan to `Packing.NextBin`, from which the bin packer `Packing.Pack` is built.
- The pure expressions of the code become functions that the methods call: the node name
  (`Results.ObjectName`), the renderer mode (`Results.RendererMode`) and the per-bin result
  (`Results.BinObject`).
- The loaded prefab contents are a class, `Scenes.Scene`. Its fields are:
  - the live node set;
  - the parent map;
  - node names;
  - the instance-id counter;
  - the mesh assets written;
  - the saved flag.

  Its methods stand for the engine calls: `new Mesh()`, `new GameObject(name)`, reparenting,
  `DestroyImmediate`, `CreateAsset` and `SaveAsPrefabAsset`.
- Each stateful operation is a method whose new state equals a function of the old one:
  - `CombinePrefabMeshes` and `Combine.CombineSpec`;
  - `ParentMeshesToPrefab` and `Parenting.ParentPlan`;
  - `DeletePrefabMeshes` and `Cleanup.DeleteAll`;
  - `MergeProcess` and `Merge.MergeSpec`.

  The lemmas state what these functions guarantee.

A few behaviours of the code are worth knowing:

- **The packer scans past misfits.** A filter that does not fit the current bin is skipped, and the
  scan goes on, so a later, smaller filter can still join that bin. For vertex counts
  40000, 30000 and 4000 the bins are [40000, 4000] and [30000] (`Packing.PackExample`).
- **Node names depend on the number of material groups.** A bin's node is named after its material
  exactly when the class has more than one material group (line 242). Otherwise it takes the
  prefab's name, even when one group yields several bins. A wrapper is made per shadow class, and
  it always takes the prefab's name.
- **A destroyed filter is "null".** With Unity's fake-null semantics, a filter whose node is gone
  compares equal to null. In the model, a filter is alive exactly while its node is in the live
  set. The On and Off filters are gathered before any node is destroyed. When the ShadowsOnly
  class yields at least one result, its cleanup runs, and an On or Off filter that sits below a
  ShadowsOnly filter's node is destroyed together with that node. Later it is skipped as null, so
  it is neither merged nor destroyed again. When the ShadowsOnly class yields no result, its
  cleanup does not run and such filters stay (`Merge.ClassStepDeletes`).
- **The root's own filter counts.** `GetComponentsInChildren` includes the filter on the prefab
  root itself. Whenever the root carries a filter of a class that yields any result, whether or
  not that filter has a mesh, the cleanup of that class destroys the root, and with it every node
  the class has just created and hung below it (`Merge.ClassStepRoot`). A mesh-less filter is
  skipped by the grouping (line 182), but the whole class list is handed to the cleanup (line 89).
  The pass then still saves the destroyed root (`Merge.MergeRootDestroyed`).

## Model

| member | source | states |
|---|---|---|
| Classify.ClassifyByShadowMode | MergeMeshesBuildTime.cs:66-81 | the three lists are exactly the ShadowsOnly, On and Off filters, each in discovery order |
| Classify.ClassifyPartition | MergeMeshesBuildTime.cs:66-81 | every filter is in the list of its own mode as often as it was found and in no other; a TwoSided filter is in none |
| Classify.ClassifyOrder | MergeMeshesBuildTime.cs:66-81 | each list is a subsequence of the discovered filters and holds only filters of its mode |
| Grouping.Usable | MergeMeshesBuildTime.cs:177-182 | a filter is used when its node is alive (not fake-null) and its shared mesh is set; GroupingPartition proves the lists hold exactly the usable filters |
| Grouping.GroupByMaterial | MergeMeshesBuildTime.cs:172-196 | the keys are the usable filters' materials in first-seen order, the map has exactly those keys, and each list is the usable filters with that material, in order |
| Grouping.MaterialOrderMembers | MergeMeshesBuildTime.cs:185-194 | a material is a key exactly when some usable filter has it |
| Grouping.MaterialOrderDistinct | MergeMeshesBuildTime.cs:187-194 | no material is a key twice |
| Grouping.GroupingPartition | MergeMeshesBuildTime.cs:175-196 | a usable filter's material is a key; each list holds a filter as often as it was given exactly when it is usable and has that material, and otherwise not at all |
| Grouping.GroupingOrder | MergeMeshesBuildTime.cs:175-196 | each list is a subsequence of the class list, and the list of a key is not empty |
| Packing.Fill | MergeMeshesBuildTime.cs:211-220 | one scan keeps the bin as a prefix of its result and keeps the total number of filters; FillMultiset shows it loses none |
| Meshes.VertexSum | MergeMeshesBuildTime.cs:213 | the bin's vertex total, summed in bin order; VertexSumBound and VertexSumSnoc state its properties |
| Meshes.VertexSumSnoc | MergeMeshesBuildTime.cs:213-217 | adding a filter to a bin adds its vertex count to the total |
| Meshes.VertexSumBound | MergeMeshesBuildTime.cs:213 | no filter of a bin has more vertices than the bin's total (used by PackCapacity) |
| Packing.NextBin | MergeMeshesBuildTime.cs:204-220 | the next bin starts with the first unplaced filter, and fewer filters remain afterwards |
| Packing.Pack | MergeMeshesBuildTime.cs:204-220 | no bin is empty, and there are no bins exactly when the group is empty |
| Packing.TakeBin | MergeMeshesBuildTime.cs:204-220 | the skip-and-retry loop computes NextBin; the bin stays below 65536 vertices unless its seed alone reaches it; no leftover filter fits the bin |
| Packing.NextBinPermutation | MergeMeshesBuildTime.cs:204-220 | the next bin and the filters left after it are a permutation of the unplaced filters |
| Packing.FillMultiset | MergeMeshesBuildTime.cs:211-220 | a scan neither loses nor duplicates filters |
| Packing.FillOrder | MergeMeshesBuildTime.cs:211-220 | a scan's added filters and its skipped filters both keep their input order |
| Packing.FillCapacity | MergeMeshesBuildTime.cs:213 | a bin under the limit stays under it; a bin already at the limit takes nothing |
| Packing.FillMaximal | MergeMeshesBuildTime.cs:213-215 | the bin only grows, and every skipped filter would push the final bin to the limit |
| Packing.PackPermutation | MergeMeshesBuildTime.cs:204-220 | concatenated, the bins are a permutation of the group |
| Packing.PackOrder | MergeMeshesBuildTime.cs:204-220 | every bin is a subsequence of the group |
| Packing.PackCapacity | MergeMeshesBuildTime.cs:204-220 | every bin is below 65536 vertices, or is a single filter that reaches the limit alone; so every filter of a bin with several filters has fewer than 65536 vertices |
| Packing.PackGreedy | MergeMeshesBuildTime.cs:204-220 | bin k is seeded by the first filter left after k bins, takes every later filter that fits, leaves the rest in order, and is the last bin exactly when nothing is left |
| Packing.PackPlacesOnce | MergeMeshesBuildTime.cs:204-220 | each filter of a duplicate-free group lies in exactly one bin |
| Packing.NotInLaterBins | MergeMeshesBuildTime.cs:204-220 | a filter that occurs once and joins the first bin is in no later bin |
| Packing.PackExample | MergeMeshesBuildTime.cs:204-220 | vertex counts 40000, 30000, 4000 yield bins [40000, 4000] and [30000] |
| Results.FirstToken | MergeMeshesBuildTime.cs:206 | the result is the prefix of the material text before its first space (all of it when there is none) |
| Results.FirstTokenUnique | MergeMeshesBuildTime.cs:206 | those three properties determine the token |
| Results.IntToString | MergeMeshesBuildTime.cs:234 | an id's text is never empty and holds no space and no '_'; IntToStringInjective shows distinct ids get distinct texts |
| Results.NatToStringValue | MergeMeshesBuildTime.cs:234 | reading back the decimal digits of an id gives the id |
| Results.IntToStringInjective | MergeMeshesBuildTime.cs:234 | distinct instance ids have distinct texts |
| Results.MaterialName | MergeMeshesBuildTime.cs:206-234 | the material's first token, "_" and the mesh id's text; MaterialNameParts states its parts |
| Results.MaterialNameParts | MergeMeshesBuildTime.cs:206-234 | a material name starts with the material's first token, and the mesh id's text follows its last '_' |
| Results.ObjectName | MergeMeshesBuildTime.cs:242 | the goName choice between material name and prefab name; ObjectNameParts, DistinctNames and CombineNames prove its properties |
| Results.ObjectNameParts | MergeMeshesBuildTime.cs:234-242 | a node name starts with the class prefix; with several groups the mesh id's text follows its last '_' |
| Results.RendererMode | MergeMeshesBuildTime.cs:257-268 | On and Off are kept, any other mode becomes ShadowsOnly, and TwoSided never results |
| Results.BinObject | MergeMeshesBuildTime.cs:233-272 | an asset is written exactly for a bin of several filters; such a bin gets the merged mesh with the bin's vertex total at the origin; a single filter's bin reuses that mesh at that filter's position; the material is the key, the layer is 9, the mode is RendererMode; the name is prefix plus material token, "_" and mesh id with several groups, and prefix plus prefab name otherwise |
| Results.AfterLastSuffix | MergeMeshesBuildTime.cs:206-234 | the text after the last '_' of a material name is the mesh id's text, which has no '_' |
| Results.DistinctNames | MergeMeshesBuildTime.cs:234-242 | with several material groups, results with different mesh ids get different names |
| Scenes.Subtree | MergeMeshesBuildTime.cs:166 | what DestroyImmediate removes is live and includes the node itself when it is live |
| Scenes.Scene.constructor | MergeMeshesBuildTime.cs:58 | the loaded contents are the given scene |
| Scenes.Scene.NewObjectId | MergeMeshesBuildTime.cs:230 | a new mesh takes the next instance id and nothing else changes |
| Scenes.ReachesMore | MergeMeshesBuildTime.cs:166 | a node below another within some number of steps stays below it for any larger bound |
| Scenes.ChainReach | MergeMeshesBuildTime.cs:139-166 | a node whose walk up is itself, its parent and perhaps a grandparent ending at a parentless top is below no other node |
| Scenes.Scene.CreateNode | MergeMeshesBuildTime.cs:243 | a new node takes the next id, is live, has the given name, and nothing else changes; in a Valid scene it was neither live nor had a parent entry; the same method makes the wrapper of line 144 |
| Scenes.Scene.SetParent | MergeMeshesBuildTime.cs:147 | only the child's parent entry changes |
| Scenes.Scene.DestroyImmediate | MergeMeshesBuildTime.cs:166 | the node's live subtree leaves the scene and nothing else changes |
| Scenes.Scene.CreateAsset | MergeMeshesBuildTime.cs:238 | the mesh is appended to the written assets and nothing else changes |
| Scenes.Scene.Save | MergeMeshesBuildTime.cs:113 | only the saved flag changes |
| Parenting.ReparentAllFacts | MergeMeshesBuildTime.cs:145-148 | after the loop, every result's parent is the wrapper and every other parent entry is unchanged |
| Parenting.ParentMeshesToPrefab | MergeMeshesBuildTime.cs:139-156 | the new scene is ParentPlan of the old one |
| Parenting.ParentSeveral | MergeMeshesBuildTime.cs:142-155 | with several results, one fresh wrapper named prefix plus prefab name is created, under the root; it is the parent of every result; nothing else changes |
| Parenting.ParentSingle | MergeMeshesBuildTime.cs:150-155 | with one result, no node is created and only that result's parent, now the root, changes |
| Parenting.ParentFrame | MergeMeshesBuildTime.cs:139-156 | parenting adds at most the wrapper, which takes the counter's value; ids stay below the counter; assets and the saved flag are untouched |
| Parenting.ParentBelowRoot | MergeMeshesBuildTime.cs:139-156 | the root still has no parent, and every result and every added node lies below it within the walk DestroyImmediate makes |
| Parenting.SeveralBelowRoot | MergeMeshesBuildTime.cs:142-155 | with several results, the wrapper and every result lie below the root within that walk |
| Parenting.ParentUnderRoot | MergeMeshesBuildTime.cs:139-156 | every result ends up at most two steps below the prefab root |
| Cleanup.DestroyIfAlive | MergeMeshesBuildTime.cs:162-166 | a dead node is skipped; afterwards the node is dead, nothing not below it dies, when it was alive nothing below it survives, and only the live set changes |
| Cleanup.DeletePrefabMeshes | MergeMeshesBuildTime.cs:158-168 | the new scene is DeleteAll of the old one, where a dead entry is skipped |
| Cleanup.DeleteAllFacts | MergeMeshesBuildTime.cs:158-168 | afterwards no filter's node is live; nodes only leave; a node below none of them stays; nothing but the live set changes |
| Cleanup.DeleteAllTop | MergeMeshesBuildTime.cs:158-168 | a live node without a parent that one of the filters sits on ends up dead with everything below it |
| Combine.EmitCombinedObject | MergeMeshesBuildTime.cs:222-272 | one bin takes a mesh id and a node id, writes an asset exactly when merged, and yields BinObject |
| Combine.EmitGroup | MergeMeshesBuildTime.cs:201-273 | the while loop over one group emits exactly Pack's bins, in order |
| Combine.EmitKeyGroup | MergeMeshesBuildTime.cs:198-274 | one round of the foreach emits the j-th key's group, and what is left to emit is the later keys' groups |
| Combine.EmitAllGroups | MergeMeshesBuildTime.cs:198-274 | the foreach over the dictionary emits all groups in key order |
| Combine.CombinePrefabMeshes | MergeMeshesBuildTime.cs:170-276 | the new scene and the returned list are CombineSpec of the old scene |
| Combine.EmitBinsPackStep | MergeMeshesBuildTime.cs:201-273 | emitting a group's bins is emitting the next bin, then the bins of what it leaves |
| Combine.EmitBinsTake | MergeMeshesBuildTime.cs:204-272 | one round of the while loop, taking the next bin and emitting it, keeps the loop's final world and its results so far followed by the rest's results equal to all of the group's results |
| Combine.EmitGroupsStep | MergeMeshesBuildTime.cs:198-274 | emitting from key j is that group's bins followed by the later groups |
| Combine.EmitBinEmitted | MergeMeshesBuildTime.cs:230-243 | one bin uses ids n (the mesh) and n+1 (the node), adds and names that node, and appends the mesh asset exactly when merged |
| Combine.EmittedConcat | MergeMeshesBuildTime.cs:198-274 | emitting two lists in turn is emitting their concatenation |
| Combine.EmitBinsEmitted | MergeMeshesBuildTime.cs:204-273 | a group's bins yield one result each, by that id scheme |
| Combine.EmitBinsObjects | MergeMeshesBuildTime.cs:204-273 | the i-th result is BinObject of the i-th bin, with ids n+2i and n+2i+1 |
| Combine.EmitBinAt | MergeMeshesBuildTime.cs:204-273 | for one index i, a group has an i-th result, and it is BinObject of the i-th bin with ids n+2i and n+2i+1 |
| Combine.EmitGroupsEmitted | MergeMeshesBuildTime.cs:198-274 | all groups together follow the same id scheme, and the parent map and saved flag are untouched |
| Combine.EmitBinsNamed | MergeMeshesBuildTime.cs:204-273 | every result of one group carries that group's own key as its material, the i-th the goName for mesh id n+2i, and the counter moves on by two per bin |
| Combine.EmitGroupsObjects | MergeMeshesBuildTime.cs:198-274 | the i-th result has a key as its material and the goName for mesh id n+2i |
| Combine.EmitGroupsEmpty | MergeMeshesBuildTime.cs:198-274 | no key gives no result and no change; a non-empty first group gives a result |
| Combine.NoKeysNoUsable | MergeMeshesBuildTime.cs:175-196 | the dictionary is empty exactly when no filter of the class is alive with a mesh |
| Combine.CombineEmpty | MergeMeshesBuildTime.cs:170-276 | nothing is returned exactly when no filter is usable, and then the scene is unchanged |
| Combine.EmittedFresh | MergeMeshesBuildTime.cs:198-274 | nodes emitted by the id scheme are live, were not live before, are pairwise distinct, and every node added lies between the old and the new counter |
| Combine.CombineFresh | MergeMeshesBuildTime.cs:170-276 | results are new live nodes with pairwise distinct ids, every added node lies between the old and the new counter, and ids stay below the counter |
| Combine.NamedDistinct | MergeMeshesBuildTime.cs:234-242 | results named by material with mesh ids two apart have pairwise distinct names |
| Combine.CombineNames | MergeMeshesBuildTime.cs:242 | with one material group every result is named prefix plus prefab name; with several, no two results share a name |
| Merge.ProcessClass | MergeMeshesBuildTime.cs:83-91 | the new scene is ClassStep of the old one |
| Merge.MergeProcess | MergeMeshesBuildTime.cs:60-113 | the new scene is MergeSpec of the old one |
| Merge.ClassStepFacts | MergeMeshesBuildTime.cs:83-111 | a class step keeps ids below the counter, adds only nodes it created, appends exactly its merged meshes' assets, and does not save |
| Merge.ClassStepDeletes | MergeMeshesBuildTime.cs:86-90 | if any filter of the class is usable, every filter's node is destroyed, including those without a mesh; otherwise the step changes nothing |
| Merge.ResultsSurvive | MergeMeshesBuildTime.cs:83-91 | with no filter of the class on the root and every filter's node pre-existing, the root and every result survive the cleanup; a single result hangs directly under the root, several hang under a surviving wrapper that hangs under the root |
| Merge.ClassStepRoot | MergeMeshesBuildTime.cs:60-91 | whenever the prefab root carries a filter of a class that yields any result, whether or not that filter has a mesh, the step destroys the root and all of the class's results: it leaves no new node alive |
| Merge.MergeRootDestroyed | MergeMeshesBuildTime.cs:60-113 | a ShadowsOnly filter on the root, with or without a mesh, while some ShadowsOnly filter is usable, leaves the root destroyed at the end, and the pass still saves |
| Merge.MergeNothingToDo | MergeMeshesBuildTime.cs:61-113 | with no filters nothing happens and nothing is saved; with no usable non-TwoSided filter the only effect is the save |
| Merge.MergeOrder | MergeMeshesBuildTime.cs:83-113 | the ShadowsOnly nodes are created before the On nodes, which are created before the Off nodes (smaller ids in the model's counter); the save comes last |

## Left out

- Asset discovery by name (lines 25-42) is not modelled; the model starts from the loaded prefab.
- The first load, the empty check, the unpack, the save and the reload (lines 48-58 and 117-137),
  and the unload after the final save (line 114),
  are not modelled: they are editor I/O. The model starts from the reloaded contents at line 60,
  so the empty-input return is the one at lines 61-64.
- The merge itself is not modelled: CombineMeshes, localToWorldMatrix and the geometry. A merged
  mesh is represented by its instance id and its vertex total.
- The asset path built at line 237 is left out. Assets are recorded by mesh id, in order.
- The position copied at line 252 is recorded as a placement, not as coordinates.
- Instance ids follow the model's own allocation scheme: one counter counting upward, two ids per
  bin (the mesh at line 230, then the node at line 243) and one per wrapper (line 144). Unity
  allocates more objects per bin (the node's Transform, and the MeshFilter and MeshRenderer added
  at lines 244 and 255), and gives new objects negative ids. So the exact ids n+2i and n+2i+1 of
  `IdsFrom`, `EmitBinsObjects`, `EmitBinAt` and `EmitBinsNamed` are the model's, not Unity's, and
  the "smaller id" of `Merge.MergeOrder` means "created earlier".
- Fake-null is modelled as "the node is not live". A destroyed mesh filter is assumed to be
  exactly a filter whose node is gone.
- Destruction goes through the parent map. The walk up from a node is bounded by the size of the
  parent map, which is exact for the acyclic hierarchy Unity maintains.
- Material.ToString() is a parameter of the prefab (`Prefab.materialText`). Materials are compared
  by identity, as integer ids.
- Failure paths are not modelled because the code does not handle them: a missing Renderer or
  MeshRenderer, an empty `sharedMaterials` array and a null material all throw in the source.
- The transforms of reparented nodes (world-position preservation) are not modelled.
- Scenes.Subtree: the model does not state that a subtree is closed under children; DestroyImmediate is specified only by what it removes.
- The save of a destroyed root (line 113 after line 166 destroyed it) is recorded as a save that
  succeeds: what the editor does with a destroyed root is not modelled.
- The enumeration order of `materialToMeshFilterList` is taken to be insertion order. .NET leaves
  the order of a `Dictionary` undefined; insertion order is what it does in practice when no entry
  is removed.
- Vertex counts are unbounded naturals. The source adds them in `int` (`Enumerable.Sum` is
  checked and throws on overflow, the `+` at line 213 wraps), so the model assumes counts far below
  the `int` range and does not model either overflow.
- The pass is not idempotent: the combined nodes carry mesh filters too, so running the pass again
  would batch them again. The model states no idempotence.
