/**
 * CombinePrefabMeshes: group one shadow class's filters by material, pack
 * each group into bins, and make one new node per bin, in group order and
 * then bin order. Every bin also takes one fresh instance id for the mesh
 * that CombineMeshes fills, drawn just before the node's own id.
 */
module Combine {
  import opened Seqs
  import opened Meshes
  import opened Grouping
  import opened Packing
  import opened Results
  import opened Scenes

  /** The scene and descriptor after one bin is merged (lines 223-272). */
  function EmitBin(w: World, bin: seq<MeshFilter>, key: MaterialId, pass: ClassPass, prefab: Prefab,
                   severalGroups: bool): (World, CombinedObject)
    requires bin != []
  {
    var meshId := w.nextId;
    var node := meshId + 1;
    var obj := BinObject(bin, key, pass, prefab, severalGroups, meshId, node);
    (w.(live := w.live + {node}, name := w.name[node := obj.name], nextId := node + 1,
        assets := if |bin| > 1 then w.assets + [meshId] else w.assets),
     obj)
  }

  /** All bins of one material group, in order. */
  function EmitBins(w: World, bins: seq<seq<MeshFilter>>, key: MaterialId, pass: ClassPass, prefab: Prefab,
                    severalGroups: bool): (World, seq<CombinedObject>)
    requires forall k :: 0 <= k < |bins| ==> bins[k] != []
    decreases |bins|
  {
    if bins == [] then (w, [])
    else
      var first := EmitBin(w, bins[0], key, pass, prefab, severalGroups);
      var others := EmitBins(first.0, bins[1..], key, pass, prefab, severalGroups);
      (others.0, [first.1] + others.1)
  }

  /** All material groups, in the dictionary's key order. */
  function EmitGroups(w: World, keys: seq<MaterialId>, usable: seq<MeshFilter>, pass: ClassPass, prefab: Prefab,
                      severalGroups: bool): (World, seq<CombinedObject>)
    decreases |keys|
  {
    if keys == [] then (w, [])
    else
      var first := EmitBins(w, Pack(WithMaterial(usable, keys[0])), keys[0], pass, prefab, severalGroups);
      var others := EmitGroups(first.0, keys[1..], usable, pass, prefab, severalGroups);
      (others.0, first.1 + others.1)
  }

  /** The scene after CombinePrefabMeshes, and the list it returns. */
  function CombineSpec(w: World, filters: seq<MeshFilter>, pass: ClassPass, prefab: Prefab): (World, seq<CombinedObject>)
  {
    var usable := UsableFilters(filters, w.live);
    var keys := MaterialOrder(usable);
    EmitGroups(w, keys, usable, pass, prefab, |keys| > 1)
  }

  /** EmitGroups from the j-th key on: the j-th group's bins, then the groups after it. */
  lemma EmitGroupsStep(w: World, keys: seq<MaterialId>, j: nat, usable: seq<MeshFilter>, pass: ClassPass,
                       prefab: Prefab, severalGroups: bool)
    requires j < |keys|
    ensures var first := EmitBins(w, Pack(WithMaterial(usable, keys[j])), keys[j], pass, prefab, severalGroups);
      var others := EmitGroups(first.0, keys[j + 1..], usable, pass, prefab, severalGroups);
      EmitGroups(w, keys[j..], usable, pass, prefab, severalGroups) == (others.0, first.1 + others.1)
  {
    assert keys[j..][0] == keys[j] && keys[j..][1..] == keys[j + 1..];
  }

  /** Emitting a group's bins: the next bin first, then the bins of what it leaves. */
  lemma EmitBinsPackStep(w: World, remaining: seq<MeshFilter>, key: MaterialId, pass: ClassPass, prefab: Prefab,
                         severalGroups: bool)
    requires remaining != []
    ensures var first := EmitBin(w, NextBin(remaining).0, key, pass, prefab, severalGroups);
      var others := EmitBins(first.0, Pack(NextBin(remaining).1), key, pass, prefab, severalGroups);
      EmitBins(w, Pack(remaining), key, pass, prefab, severalGroups) == (others.0, [first.1] + others.1)
  {
    var bins := Pack(remaining);
    assert bins == [NextBin(remaining).0] + Pack(NextBin(remaining).1);
    assert bins[1..] == Pack(NextBin(remaining).1);
  }

  /**
   * One round of the group's `while` loop: taking the next bin and emitting
   * it leaves the same final world, and the results so far followed by the
   * rest's results are the same list.
   */
  lemma EmitBinsTake(w: World, remaining: seq<MeshFilter>, bin: seq<MeshFilter>, rest: seq<MeshFilter>, w1: World,
                     obj: CombinedObject, done: seq<CombinedObject>, key: MaterialId, pass: ClassPass,
                     prefab: Prefab, severalGroups: bool)
    requires remaining != [] && (bin, rest) == NextBin(remaining)
    requires (w1, obj) == EmitBin(w, bin, key, pass, prefab, severalGroups)
    ensures EmitBins(w, Pack(remaining), key, pass, prefab, severalGroups).0
            == EmitBins(w1, Pack(rest), key, pass, prefab, severalGroups).0
    ensures done + EmitBins(w, Pack(remaining), key, pass, prefab, severalGroups).1
            == (done + [obj]) + EmitBins(w1, Pack(rest), key, pass, prefab, severalGroups).1
  {
    EmitBinsPackStep(w, remaining, key, pass, prefab, severalGroups);
    var others := EmitBins(w1, Pack(rest), key, pass, prefab, severalGroups).1;
    assert done + ([obj] + others) == (done + [obj]) + others;
  }

  /** Lines 223-272 for one closed bin. */
  method EmitCombinedObject(scene: Scene, bin: seq<MeshFilter>, key: MaterialId, pass: ClassPass, prefab: Prefab,
                            severalGroups: bool) returns (obj: CombinedObject)
    requires bin != []
    modifies scene
    ensures (scene.State(), obj) == EmitBin(old(scene.State()), bin, key, pass, prefab, severalGroups)
  {
    var meshId := scene.NewObjectId();  // new Mesh(), filled by CombineMeshes
    if |bin| > 1 {
      scene.CreateAsset(meshId);
    }
    var goName := ObjectName(pass, prefab, severalGroups, key, meshId);
    var node := scene.CreateNode(goName);
    obj := BinObject(bin, key, pass, prefab, severalGroups, meshId, node);
  }

  /** The `while` loop over one material group: bins are taken and merged until none is left. */
  method EmitGroup(scene: Scene, group: seq<MeshFilter>, key: MaterialId, pass: ClassPass, prefab: Prefab,
                   severalGroups: bool) returns (objects: seq<CombinedObject>)
    modifies scene
    ensures (scene.State(), objects) == EmitBins(old(scene.State()), Pack(group), key, pass, prefab, severalGroups)
  {
    ghost var total := EmitBins(scene.State(), Pack(group), key, pass, prefab, severalGroups);
    var remaining := group;
    objects := [];
    while remaining != []
      invariant EmitBins(scene.State(), Pack(remaining), key, pass, prefab, severalGroups).0 == total.0
      invariant objects + EmitBins(scene.State(), Pack(remaining), key, pass, prefab, severalGroups).1 == total.1
      decreases |remaining|
    {
      ghost var before := scene.State();
      var bin, rest := TakeBin(remaining);
      var obj := EmitCombinedObject(scene, bin, key, pass, prefab, severalGroups);
      EmitBinsTake(before, remaining, bin, rest, scene.State(), obj, objects, key, pass, prefab, severalGroups);
      objects := objects + [obj];
      remaining := rest;
    }
    assert objects + [] == objects;
  }

  /** One round of the `foreach` over the dictionary's entries: the group of the j-th key. */
  method EmitKeyGroup(scene: Scene, keys: seq<MaterialId>, j: nat, groups: map<MaterialId, seq<MeshFilter>>,
                      ghost usable: seq<MeshFilter>, pass: ClassPass, prefab: Prefab, severalGroups: bool)
    returns (groupObjects: seq<CombinedObject>)
    requires j < |keys| && keys[j] in groups && groups[keys[j]] == WithMaterial(usable, keys[j])
    modifies scene
    ensures EmitGroups(old(scene.State()), keys[j..], usable, pass, prefab, severalGroups).0 ==
            EmitGroups(scene.State(), keys[j + 1..], usable, pass, prefab, severalGroups).0
    ensures EmitGroups(old(scene.State()), keys[j..], usable, pass, prefab, severalGroups).1 ==
            groupObjects + EmitGroups(scene.State(), keys[j + 1..], usable, pass, prefab, severalGroups).1
  {
    EmitGroupsStep(scene.State(), keys, j, usable, pass, prefab, severalGroups);
    groupObjects := EmitGroup(scene, groups[keys[j]], keys[j], pass, prefab, severalGroups);
  }

  /** The `foreach` over the dictionary's entries. */
  method EmitAllGroups(scene: Scene, keys: seq<MaterialId>, groups: map<MaterialId, seq<MeshFilter>>,
                       ghost usable: seq<MeshFilter>, pass: ClassPass, prefab: Prefab, severalGroups: bool)
    returns (objects: seq<CombinedObject>)
    requires forall k :: k in keys ==> k in groups && groups[k] == WithMaterial(usable, k)
    modifies scene
    ensures (scene.State(), objects) == EmitGroups(old(scene.State()), keys, usable, pass, prefab, severalGroups)
  {
    ghost var total := EmitGroups(scene.State(), keys, usable, pass, prefab, severalGroups);
    objects := [];
    for j := 0 to |keys|
      invariant EmitGroups(scene.State(), keys[j..], usable, pass, prefab, severalGroups).0 == total.0
      invariant objects + EmitGroups(scene.State(), keys[j..], usable, pass, prefab, severalGroups).1 == total.1
    {
      assert keys[j] in keys;
      var groupObjects := EmitKeyGroup(scene, keys, j, groups, usable, pass, prefab, severalGroups);
      AppendAssoc(objects, groupObjects, EmitGroups(scene.State(), keys[j + 1..], usable, pass, prefab, severalGroups).1);
      objects := objects + groupObjects;
    }
    assert keys[|keys|..] == [] && objects + [] == objects;
  }

  method CombinePrefabMeshes(scene: Scene, filters: seq<MeshFilter>, pass: ClassPass, prefab: Prefab)
    returns (objects: seq<CombinedObject>)
    modifies scene
    ensures (scene.State(), objects) == CombineSpec(old(scene.State()), filters, pass, prefab)
  {
    ghost var usable := UsableFilters(filters, scene.live);
    var keys, groups := GroupByMaterial(filters, scene.live);
    objects := EmitAllGroups(scene, keys, groups, usable, pass, prefab, |keys| > 1);
  }

  /** The nodes of a list of results. */
  function NodesOf(objects: seq<CombinedObject>): set<NodeId>
  {
    set o | o in objects :: o.node
  }

  /** The mesh assets written for a list of results, in order. */
  function AssetsOf(objects: seq<CombinedObject>): seq<int>
  {
    if objects == [] then []
    else (if objects[0].assetWritten then [objects[0].mesh.meshId] else []) + AssetsOf(objects[1..])
  }

  /** Result i has node id base + 2i + 1 (its mesh took base + 2i). */
  predicate IdsFrom(objects: seq<CombinedObject>, base: int)
  {
    forall i :: 0 <= i < |objects| ==> objects[i].node == base + 2 * i + 1
  }

  /** Every result's node carries its name in `r`; every other name of `w` is kept. */
  predicate NamesSet(w: World, r: World, objects: seq<CombinedObject>)
  {
    && (forall o :: o in objects ==> o.node in r.name && r.name[o.node] == o.name)
    && (forall x :: x in w.name && x !in NodesOf(objects) ==> x in r.name && r.name[x] == w.name[x])
  }

  /**
   * How `r` arises from `w` by emitting `objects`: two ids per result (the
   * mesh's, then the node's), the result nodes and nothing else join the
   * scene and get their names, the merged meshes' assets are appended, and
   * the parent map and the saved flag stay as they were.
   */
  predicate Emitted(w: World, r: World, objects: seq<CombinedObject>)
  {
    && r.nextId == w.nextId + 2 * |objects|
    && IdsFrom(objects, w.nextId)
    && r.live == w.live + NodesOf(objects)
    && NamesSet(w, r, objects)
    && r.parent == w.parent && r.saved == w.saved
    && r.assets == w.assets + AssetsOf(objects)
  }

  lemma {:induction false} AssetsOfConcat(a: seq<CombinedObject>, b: seq<CombinedObject>)
    ensures AssetsOf(a + b) == AssetsOf(a) + AssetsOf(b)
  {
    if a != [] {
      var ab := a + b;
      assert ab != [] && ab[0] == a[0] && ab[1..] == a[1..] + b;
      AssetsOfConcat(a[1..], b);
      assert AssetsOf(ab) == (if a[0].assetWritten then [a[0].mesh.meshId] else []) + AssetsOf(a[1..] + b);
    } else {
      assert a + b == b;
    }
  }

  lemma NodesOfConcat(a: seq<CombinedObject>, b: seq<CombinedObject>)
    ensures NodesOf(a + b) == NodesOf(a) + NodesOf(b)
  {
    assert forall o :: o in a + b <==> o in a || o in b;
  }

  lemma IdsConcat(o1: seq<CombinedObject>, o2: seq<CombinedObject>, base: int)
    requires IdsFrom(o1, base) && IdsFrom(o2, base + 2 * |o1|)
    ensures IdsFrom(o1 + o2, base)
  {
    forall i | |o1| <= i < |o1 + o2|
      ensures (o1 + o2)[i].node == base + 2 * i + 1
    {
      assert (o1 + o2)[i] == o2[i - |o1|];
    }
  }

  /** Ids below `bound` are not nodes of results whose ids start at `bound`. */
  lemma NodesAbove(objects: seq<CombinedObject>, bound: int, x: NodeId)
    requires IdsFrom(objects, bound) && x < bound
    ensures x !in NodesOf(objects)
  {
    forall o | o in objects
      ensures o.node != x
    {
      var k :| 0 <= k < |objects| && objects[k] == o;
    }
  }

  lemma NamesConcat(w: World, w1: World, w2: World, o1: seq<CombinedObject>, o2: seq<CombinedObject>, base: int)
    requires NamesSet(w, w1, o1) && NamesSet(w1, w2, o2)
    requires IdsFrom(o1, base) && IdsFrom(o2, base + 2 * |o1|)
    ensures NamesSet(w, w2, o1 + o2)
  {
    NodesOfConcat(o1, o2);
    forall o | o in o1
      ensures o.node in w2.name && w2.name[o.node] == o.name
    {
      var i :| 0 <= i < |o1| && o1[i] == o;
      NodesAbove(o2, base + 2 * |o1|, o.node);
    }
  }

  lemma EmittedConcat(w: World, w1: World, w2: World, o1: seq<CombinedObject>, o2: seq<CombinedObject>)
    requires Emitted(w, w1, o1) && Emitted(w1, w2, o2)
    ensures Emitted(w, w2, o1 + o2)
  {
    AssetsOfConcat(o1, o2);
    NodesOfConcat(o1, o2);
    IdsConcat(o1, o2, w.nextId);
    NamesConcat(w, w1, w2, o1, o2, w.nextId);
  }

  /** Merging one bin emits its result with ids w.nextId (mesh) and w.nextId + 1 (node). */
  lemma EmitBinEmitted(w: World, bin: seq<MeshFilter>, key: MaterialId, pass: ClassPass, prefab: Prefab,
                       severalGroups: bool)
    requires bin != []
    ensures var r := EmitBin(w, bin, key, pass, prefab, severalGroups);
      Emitted(w, r.0, [r.1]) && r.1 == BinObject(bin, key, pass, prefab, severalGroups, w.nextId, w.nextId + 1)
  {
    var r := EmitBin(w, bin, key, pass, prefab, severalGroups);
    assert NodesOf([r.1]) == {r.1.node};
    assert AssetsOf([r.1]) == if |bin| > 1 then [w.nextId] else [];
  }

  /** The bins of a group are emitted one after another, one result each. */
  lemma {:induction false} EmitBinsEmitted(w: World, bins: seq<seq<MeshFilter>>, key: MaterialId, pass: ClassPass,
                                           prefab: Prefab, severalGroups: bool)
    requires forall k :: 0 <= k < |bins| ==> bins[k] != []
    ensures var r := EmitBins(w, bins, key, pass, prefab, severalGroups);
      Emitted(w, r.0, r.1) && |r.1| == |bins|
    decreases |bins|
  {
    if bins != [] {
      var first := EmitBin(w, bins[0], key, pass, prefab, severalGroups);
      var others := EmitBins(first.0, bins[1..], key, pass, prefab, severalGroups);
      EmitBinEmitted(w, bins[0], key, pass, prefab, severalGroups);
      EmitBinsEmitted(first.0, bins[1..], key, pass, prefab, severalGroups);
      EmittedConcat(w, first.0, others.0, [first.1], others.1);
    }
  }

  /** The i-th result is the descriptor of the i-th bin, with ids w.nextId + 2i and + 2i + 1. */
  lemma {:induction false} EmitBinsObjects(w: World, bins: seq<seq<MeshFilter>>, key: MaterialId, pass: ClassPass,
                                           prefab: Prefab, severalGroups: bool)
    requires forall k :: 0 <= k < |bins| ==> bins[k] != []
    ensures |EmitBins(w, bins, key, pass, prefab, severalGroups).1| == |bins|
    ensures forall i :: 0 <= i < |bins| ==>
      EmitBins(w, bins, key, pass, prefab, severalGroups).1[i]
      == BinObject(bins[i], key, pass, prefab, severalGroups, w.nextId + 2 * i, w.nextId + 2 * i + 1)
  {
    EmitBinsLength(w, bins, key, pass, prefab, severalGroups);
    forall i | 0 <= i < |bins|
      ensures EmitBins(w, bins, key, pass, prefab, severalGroups).1[i]
              == BinObject(bins[i], key, pass, prefab, severalGroups, w.nextId + 2 * i, w.nextId + 2 * i + 1)
    {
      EmitBinAt(w, bins, i, key, pass, prefab, severalGroups);
    }
  }

  /** A group's bins yield one result each. */
  lemma {:induction false} EmitBinsLength(w: World, bins: seq<seq<MeshFilter>>, key: MaterialId, pass: ClassPass,
                                          prefab: Prefab, severalGroups: bool)
    requires forall k :: 0 <= k < |bins| ==> bins[k] != []
    ensures |EmitBins(w, bins, key, pass, prefab, severalGroups).1| == |bins|
    decreases |bins|
  {
    if bins != [] {
      EmitBinsLength(EmitBin(w, bins[0], key, pass, prefab, severalGroups).0, bins[1..], key, pass, prefab,
                     severalGroups);
    }
  }

  /** The `i`-th result of a group is made from its `i`-th bin with ids n + 2i and n + 2i + 1. */
  lemma {:induction false} EmitBinAt(w: World, bins: seq<seq<MeshFilter>>, i: nat, key: MaterialId, pass: ClassPass,
                                     prefab: Prefab, severalGroups: bool)
    requires forall k :: 0 <= k < |bins| ==> bins[k] != []
    requires i < |bins|
    ensures i < |EmitBins(w, bins, key, pass, prefab, severalGroups).1|
    ensures EmitBins(w, bins, key, pass, prefab, severalGroups).1[i]
            == BinObject(bins[i], key, pass, prefab, severalGroups, w.nextId + 2 * i, w.nextId + 2 * i + 1)
    decreases i
  {
    var first := EmitBin(w, bins[0], key, pass, prefab, severalGroups);
    var others := EmitBins(first.0, bins[1..], key, pass, prefab, severalGroups).1;
    var r := EmitBins(w, bins, key, pass, prefab, severalGroups).1;
    assert r == [first.1] + others;
    if i == 0 {
      assert r[0] == first.1;
    } else {
      EmitBinAt(first.0, bins[1..], i - 1, key, pass, prefab, severalGroups);
      assert r[i] == others[i - 1];
      assert bins[1..][i - 1] == bins[i];
      assert first.0.nextId == w.nextId + 2;
    }
  }

  /** The groups are emitted one after another. */
  lemma {:induction false} EmitGroupsEmitted(w: World, keys: seq<MaterialId>, usable: seq<MeshFilter>, pass: ClassPass,
                                             prefab: Prefab, severalGroups: bool)
    ensures var r := EmitGroups(w, keys, usable, pass, prefab, severalGroups);
      Emitted(w, r.0, r.1)
    decreases |keys|
  {
    if keys != [] {
      var bins := Pack(WithMaterial(usable, keys[0]));
      var first := EmitBins(w, bins, keys[0], pass, prefab, severalGroups);
      var others := EmitGroups(first.0, keys[1..], usable, pass, prefab, severalGroups);
      EmitBinsEmitted(w, bins, keys[0], pass, prefab, severalGroups);
      EmitGroupsEmitted(first.0, keys[1..], usable, pass, prefab, severalGroups);
      EmittedConcat(w, first.0, others.0, first.1, others.1);
    }
  }

  /** Result `o`, made with mesh id `meshId`, has one of `keys` for its material and the name goName gives it. */
  predicate NamedResult(o: CombinedObject, keys: seq<MaterialId>, pass: ClassPass, prefab: Prefab,
                        severalGroups: bool, meshId: int)
  {
    o.material in keys && o.name == ObjectName(pass, prefab, severalGroups, o.material, meshId)
  }

  /** Every result of `objects` is a NamedResult, the i-th made with mesh id base + 2i. */
  predicate AllNamed(objects: seq<CombinedObject>, keys: seq<MaterialId>, pass: ClassPass, prefab: Prefab,
                     severalGroups: bool, base: int)
  {
    forall i :: 0 <= i < |objects| ==> NamedResult(objects[i], keys, pass, prefab, severalGroups, base + 2 * i)
  }

  lemma NamedConcat(o1: seq<CombinedObject>, o2: seq<CombinedObject>, keys: seq<MaterialId>, keys2: seq<MaterialId>,
                    pass: ClassPass, prefab: Prefab, severalGroups: bool, base: int)
    requires forall m :: m in keys2 ==> m in keys
    requires AllNamed(o1, keys, pass, prefab, severalGroups, base)
    requires AllNamed(o2, keys2, pass, prefab, severalGroups, base + 2 * |o1|)
    ensures AllNamed(o1 + o2, keys, pass, prefab, severalGroups, base)
  {
    forall i | |o1| <= i < |o1 + o2|
      ensures NamedResult((o1 + o2)[i], keys, pass, prefab, severalGroups, base + 2 * i)
    {
      var k := i - |o1|;
      assert (o1 + o2)[i] == o2[k];
      assert NamedResult(o2[k], keys2, pass, prefab, severalGroups, base + 2 * |o1| + 2 * k);
    }
  }

  /** The results of one group's bins are NamedResults, and the counter moves on by two per bin. */
  lemma EmitBinsNamed(w: World, bins: seq<seq<MeshFilter>>, key: MaterialId, keys: seq<MaterialId>, pass: ClassPass,
                      prefab: Prefab, severalGroups: bool)
    requires forall k :: 0 <= k < |bins| ==> bins[k] != []
    requires key in keys
    ensures EmitBins(w, bins, key, pass, prefab, severalGroups).0.nextId
            == w.nextId + 2 * |EmitBins(w, bins, key, pass, prefab, severalGroups).1|
    ensures AllNamed(EmitBins(w, bins, key, pass, prefab, severalGroups).1, keys, pass, prefab, severalGroups, w.nextId)
    ensures forall o :: o in EmitBins(w, bins, key, pass, prefab, severalGroups).1 ==> o.material == key
  {
    EmitBinsEmitted(w, bins, key, pass, prefab, severalGroups);
    EmitBinsObjects(w, bins, key, pass, prefab, severalGroups);
    var objects := EmitBins(w, bins, key, pass, prefab, severalGroups).1;
    forall i | 0 <= i < |objects|
      ensures NamedResult(objects[i], keys, pass, prefab, severalGroups, w.nextId + 2 * i) && objects[i].material == key
    {
      assert objects[i] == BinObject(bins[i], key, pass, prefab, severalGroups, w.nextId + 2 * i, w.nextId + 2 * i + 1);
    }
  }

  /** The i-th result of all groups is a NamedResult with mesh id w.nextId + 2i. */
  lemma {:induction false} EmitGroupsObjects(w: World, keys: seq<MaterialId>, usable: seq<MeshFilter>, pass: ClassPass,
                                             prefab: Prefab, severalGroups: bool)
    ensures AllNamed(EmitGroups(w, keys, usable, pass, prefab, severalGroups).1, keys, pass, prefab, severalGroups,
                     w.nextId)
    decreases |keys|
  {
    if keys != [] {
      var bins := Pack(WithMaterial(usable, keys[0]));
      var first := EmitBins(w, bins, keys[0], pass, prefab, severalGroups);
      var others := EmitGroups(first.0, keys[1..], usable, pass, prefab, severalGroups);
      EmitBinsNamed(w, bins, keys[0], keys, pass, prefab, severalGroups);
      EmitGroupsObjects(first.0, keys[1..], usable, pass, prefab, severalGroups);
      assert first.0.nextId == w.nextId + 2 * |first.1|;
      forall m | m in keys[1..] ensures m in keys { }
      NamedConcat(first.1, others.1, keys, keys[1..], pass, prefab, severalGroups, w.nextId);
      assert EmitGroups(w, keys, usable, pass, prefab, severalGroups).1 == first.1 + others.1;
    }
  }

  /** No key, no result; with a key whose group is not empty, at least one result. */
  lemma EmitGroupsEmpty(w: World, keys: seq<MaterialId>, usable: seq<MeshFilter>, pass: ClassPass,
                        prefab: Prefab, severalGroups: bool)
    requires keys != [] ==> WithMaterial(usable, keys[0]) != []
    ensures keys == [] ==> EmitGroups(w, keys, usable, pass, prefab, severalGroups) == (w, [])
    ensures keys != [] ==> EmitGroups(w, keys, usable, pass, prefab, severalGroups).1 != []
  {
    if keys != [] {
      var bins := Pack(WithMaterial(usable, keys[0]));
      var first := EmitBins(w, bins, keys[0], pass, prefab, severalGroups);
      var others := EmitGroups(first.0, keys[1..], usable, pass, prefab, severalGroups);
      EmitBinsEmitted(w, bins, keys[0], pass, prefab, severalGroups);
      assert EmitGroups(w, keys, usable, pass, prefab, severalGroups).1 == first.1 + others.1 && first.1 != [];
    }
  }

  /** A class has no material group exactly when none of its filters is usable. */
  lemma NoKeysNoUsable(filters: seq<MeshFilter>, live: set<NodeId>)
    ensures MaterialOrder(UsableFilters(filters, live)) == [] <==> forall f :: f in filters ==> !Usable(f, live)
  {
    var usable := UsableFilters(filters, live);
    forall f | f in filters && Usable(f, live)
      ensures MaterialOrder(usable) != []
    {
      KeepCount(filters, (g: MeshFilter) => Usable(g, live), f);
      MaterialOrderMembers(usable, f.material);
    }
    if usable != [] {
      var f := usable[0];
      assert f in filters && Usable(f, live);
    }
  }

  /**
   * CombinePrefabMeshes returns nothing exactly when no filter of the class
   * is usable (alive with a mesh), and then leaves the scene as it was.
   */
  lemma CombineEmpty(w: World, filters: seq<MeshFilter>, pass: ClassPass, prefab: Prefab)
    ensures CombineSpec(w, filters, pass, prefab).1 == [] <==> forall f :: f in filters ==> !Usable(f, w.live)
    ensures CombineSpec(w, filters, pass, prefab).1 == [] ==> CombineSpec(w, filters, pass, prefab).0 == w
  {
    var usable := UsableFilters(filters, w.live);
    var keys := MaterialOrder(usable);
    NoKeysNoUsable(filters, w.live);
    if keys != [] {
      GroupingOrder(filters, w.live, keys[0]);
    }
    EmitGroupsEmpty(w, keys, usable, pass, prefab, |keys| > 1);
  }

  /**
   * When every live node's id is below the counter, so it is afterwards, and
   * the results are new live nodes, pairwise distinct.
   */
  lemma CombineFresh(w: World, filters: seq<MeshFilter>, pass: ClassPass, prefab: Prefab)
    requires w.Valid()
    ensures Emitted(w, CombineSpec(w, filters, pass, prefab).0, CombineSpec(w, filters, pass, prefab).1)
    ensures CombineSpec(w, filters, pass, prefab).0.Valid()
    ensures forall x :: x in CombineSpec(w, filters, pass, prefab).0.live && x !in w.live ==>
      w.nextId <= x < CombineSpec(w, filters, pass, prefab).0.nextId
    ensures forall o :: o in CombineSpec(w, filters, pass, prefab).1 ==>
      o.node in CombineSpec(w, filters, pass, prefab).0.live && o.node !in w.live
    ensures forall i, j :: 0 <= i < j < |CombineSpec(w, filters, pass, prefab).1| ==>
      CombineSpec(w, filters, pass, prefab).1[i].node != CombineSpec(w, filters, pass, prefab).1[j].node
  {
    var usable := UsableFilters(filters, w.live);
    EmitGroupsEmitted(w, MaterialOrder(usable), usable, pass, prefab, |MaterialOrder(usable)| > 1);
    var r := CombineSpec(w, filters, pass, prefab);
    EmittedFresh(w, r.0, r.1);
  }

  /** Emitted results are new live nodes with ids from the counter's value on, pairwise distinct. */
  lemma EmittedFresh(w: World, r: World, objects: seq<CombinedObject>)
    requires Emitted(w, r, objects) && w.Valid()
    ensures r.Valid()
    ensures forall x :: x in r.live && x !in w.live ==> w.nextId <= x < r.nextId
    ensures forall o :: o in objects ==> o.node in r.live && o.node !in w.live
    ensures forall i, j :: 0 <= i < j < |objects| ==> objects[i].node != objects[j].node
  {
    forall o | o in objects
      ensures o.node in r.live && w.nextId <= o.node < r.nextId
    {
      var i :| 0 <= i < |objects| && objects[i] == o;
    }
    forall x | x in r.live && x !in w.live
      ensures w.nextId <= x < r.nextId
    {
      var o :| o in objects && o.node == x;
    }
  }

  /** Results named by material with distinct mesh ids have distinct names. */
  lemma NamedDistinct(objects: seq<CombinedObject>, keys: seq<MaterialId>, pass: ClassPass, prefab: Prefab, base: int)
    requires AllNamed(objects, keys, pass, prefab, true, base)
    ensures forall i, j :: 0 <= i < j < |objects| ==> objects[i].name != objects[j].name
  {
    forall i, j | 0 <= i < j < |objects|
      ensures objects[i].name != objects[j].name
    {
      assert NamedResult(objects[i], keys, pass, prefab, true, base + 2 * i);
      assert NamedResult(objects[j], keys, pass, prefab, true, base + 2 * j);
      DistinctNames(pass, prefab, objects[i].material, objects[j].material, base + 2 * i, base + 2 * j);
    }
  }

  /**
   * Every result carries one of the group keys as its material; with one
   * material group every result is named prefix + prefab name, with several
   * no two results share a name.
   */
  lemma CombineNames(w: World, filters: seq<MeshFilter>, pass: ClassPass, prefab: Prefab)
    ensures forall o :: o in CombineSpec(w, filters, pass, prefab).1 ==>
      o.material in MaterialOrder(UsableFilters(filters, w.live))
    ensures |MaterialOrder(UsableFilters(filters, w.live))| <= 1 ==>
      forall o :: o in CombineSpec(w, filters, pass, prefab).1 ==> o.name == pass.prefix + prefab.name
    ensures |MaterialOrder(UsableFilters(filters, w.live))| > 1 ==>
      forall i, j :: 0 <= i < j < |CombineSpec(w, filters, pass, prefab).1| ==>
        CombineSpec(w, filters, pass, prefab).1[i].name != CombineSpec(w, filters, pass, prefab).1[j].name
  {
    var usable := UsableFilters(filters, w.live);
    var keys := MaterialOrder(usable);
    var several := |keys| > 1;
    var objects := CombineSpec(w, filters, pass, prefab).1;
    assert objects == EmitGroups(w, keys, usable, pass, prefab, several).1;
    EmitGroupsObjects(w, keys, usable, pass, prefab, several);
    forall o | o in objects
      ensures o.material in keys
      ensures !several ==> o.name == pass.prefix + prefab.name
    {
      var i :| 0 <= i < |objects| && objects[i] == o;
      assert NamedResult(objects[i], keys, pass, prefab, several, w.nextId + 2 * i);
    }
    if several {
      NamedDistinct(objects, keys, pass, prefab, w.nextId);
    }
  }
}
