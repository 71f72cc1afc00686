/**
 * ParentMeshesToPrefab: the results of one shadow class are hung under the
 * prefab root, through a fresh wrapper node when there are several of them.
 */
module Parenting {
  import opened Meshes
  import opened Results
  import opened Scenes

  /** The parent map after every result's parent is set to `p`, in turn. */
  function ReparentAll(parent: map<NodeId, NodeId>, objects: seq<CombinedObject>, p: NodeId): map<NodeId, NodeId>
  {
    if objects == [] then parent
    else ReparentAll(parent, objects[..|objects| - 1], p)[objects[|objects| - 1].node := p]
  }

  /** Every result's parent is `p`; every other entry of the map is as it was. */
  lemma {:induction false} ReparentAllFacts(parent: map<NodeId, NodeId>, objects: seq<CombinedObject>, p: NodeId)
    ensures forall o :: o in objects ==> o.node in ReparentAll(parent, objects, p) && ReparentAll(parent, objects, p)[o.node] == p
    ensures forall x :: (forall o :: o in objects ==> o.node != x) ==>
      (x in ReparentAll(parent, objects, p) <==> x in parent) &&
      (x in parent ==> ReparentAll(parent, objects, p)[x] == parent[x])
  {
    if objects != [] {
      var init := objects[..|objects| - 1];
      assert objects == init + [objects[|objects| - 1]];
      ReparentAllFacts(parent, init, p);
    }
  }

  /**
   * The scene after ParentMeshesToPrefab: with several results a new node
   * named prefix + prefab name becomes their parent and is put under the
   * root; a single result is put under the root itself.
   */
  function ParentPlan(w: World, objects: seq<CombinedObject>, prefab: Prefab, prefix: string): World
    requires objects != []
  {
    if |objects| > 1 then
      var wrapper := w.nextId;
      var created := w.(live := w.live + {wrapper}, name := w.name[wrapper := prefix + prefab.name], nextId := wrapper + 1);
      created.(parent := ReparentAll(created.parent, objects, wrapper)[wrapper := prefab.root])
    else
      w.(parent := w.parent[objects[0].node := prefab.root])
  }

  method ParentMeshesToPrefab(scene: Scene, objects: seq<CombinedObject>, prefab: Prefab, prefix: string)
    requires objects != []
    modifies scene
    ensures scene.State() == ParentPlan(old(scene.State()), objects, prefab, prefix)
  {
    var resultNode: NodeId;
    if |objects| > 1 {
      resultNode := scene.CreateNode(prefix + prefab.name);
      ghost var created := scene.State();
      for i := 0 to |objects|
        invariant scene.State() == created.(parent := ReparentAll(created.parent, objects[..i], resultNode))
      {
        assert objects[..i + 1][..i] == objects[..i];
        scene.SetParent(objects[i].node, resultNode);
      }
      assert objects[..|objects|] == objects;
    } else {
      resultNode := objects[0].node;
    }
    scene.SetParent(resultNode, prefab.root);
  }

  /**
   * With several results: exactly one node is created, it is fresh, carries
   * prefix + prefab name and sits under the root; every result's parent is
   * that node; no other parent entry, asset or the saved flag changes.
   */
  lemma ParentSeveral(w: World, objects: seq<CombinedObject>, prefab: Prefab, prefix: string)
    requires |objects| > 1 && w.Valid()
    requires forall o :: o in objects ==> o.node in w.live
    ensures var r := ParentPlan(w, objects, prefab, prefix);
      var wrapper := w.nextId;
      && wrapper !in w.live && wrapper !in w.parent
      && r.live == w.live + {wrapper}
      && r.name == w.name[wrapper := prefix + prefab.name]
      && r.nextId == wrapper + 1 && r.Valid()
      && wrapper in r.parent && r.parent[wrapper] == prefab.root
      && (forall o :: o in objects ==> o.node in r.parent && r.parent[o.node] == wrapper)
      && (forall x :: x != wrapper && (forall o :: o in objects ==> o.node != x) ==>
            (x in r.parent <==> x in w.parent) && (x in w.parent ==> r.parent[x] == w.parent[x]))
      && r.assets == w.assets && r.saved == w.saved
  {
    ReparentAllFacts(w.parent, objects, w.nextId);
  }

  /**
   * With one result: no node is created, that result's parent becomes the
   * root, and nothing else changes.
   */
  lemma ParentSingle(w: World, objects: seq<CombinedObject>, prefab: Prefab, prefix: string)
    requires |objects| == 1
    ensures var r := ParentPlan(w, objects, prefab, prefix);
      && r.live == w.live && r.name == w.name && r.nextId == w.nextId
      && objects[0].node in r.parent && r.parent[objects[0].node] == prefab.root
      && (forall x :: x != objects[0].node ==>
            (x in r.parent <==> x in w.parent) && (x in w.parent ==> r.parent[x] == w.parent[x]))
      && r.assets == w.assets && r.saved == w.saved
  {
  }

  /**
   * Either way, parenting keeps every live id below the counter, adds at
   * most the wrapper (the counter's value) to the scene, and leaves the
   * assets and the saved flag alone.
   */
  lemma ParentFrame(w: World, objects: seq<CombinedObject>, prefab: Prefab, prefix: string)
    requires objects != [] && w.Valid()
    requires forall o :: o in objects ==> o.node in w.live
    ensures ParentPlan(w, objects, prefab, prefix).Valid()
    ensures w.nextId <= ParentPlan(w, objects, prefab, prefix).nextId
    ensures forall x :: x in ParentPlan(w, objects, prefab, prefix).live ==> x in w.live || x == w.nextId
    ensures ParentPlan(w, objects, prefab, prefix).assets == w.assets
    ensures ParentPlan(w, objects, prefab, prefix).saved == w.saved
  {
    if |objects| > 1 {
      ParentSeveral(w, objects, prefab, prefix);
    }
  }

  /** Either way, every result ends up within two steps below the prefab root. */
  lemma ParentUnderRoot(w: World, objects: seq<CombinedObject>, prefab: Prefab, prefix: string)
    requires objects != [] && w.Valid()
    requires forall o :: o in objects ==> o.node in w.live
    ensures forall o :: o in objects ==> Reaches(ParentPlan(w, objects, prefab, prefix).parent, prefab.root, o.node, 2)
  {
    var r := ParentPlan(w, objects, prefab, prefix);
    if |objects| > 1 {
      ParentSeveral(w, objects, prefab, prefix);
      forall o | o in objects
        ensures Reaches(r.parent, prefab.root, o.node, 2)
      {
        assert Reaches(r.parent, prefab.root, w.nextId, 1);
      }
    }
  }

  /**
   * The prefab root has no parent. After parenting it still has none, and
   * every result, as well as every node parenting adds, is below it within
   * the walk DestroyImmediate makes: destroying the root takes them all.
   */
  lemma ParentBelowRoot(w: World, objects: seq<CombinedObject>, prefab: Prefab, prefix: string)
    requires objects != [] && w.Valid()
    requires forall o :: o in objects ==> o.node in w.live && o.node != prefab.root
    requires prefab.root in w.live && prefab.root !in w.parent
    ensures prefab.root in ParentPlan(w, objects, prefab, prefix).live
    ensures prefab.root !in ParentPlan(w, objects, prefab, prefix).parent
    ensures forall o :: o in objects ==>
      Reaches(ParentPlan(w, objects, prefab, prefix).parent, prefab.root, o.node,
              |ParentPlan(w, objects, prefab, prefix).parent|)
    ensures forall x :: x in ParentPlan(w, objects, prefab, prefix).live && x !in w.live ==>
      Reaches(ParentPlan(w, objects, prefab, prefix).parent, prefab.root, x,
              |ParentPlan(w, objects, prefab, prefix).parent|)
  {
    if |objects| > 1 {
      SeveralBelowRoot(w, objects, prefab, prefix);
    } else {
      var r := ParentPlan(w, objects, prefab, prefix);
      ParentSingle(w, objects, prefab, prefix);
      assert objects[0].node in r.parent.Keys;
      assert Reaches(r.parent, prefab.root, objects[0].node, 1);
      ReachesMore(r.parent, prefab.root, objects[0].node, 1, |r.parent|);
    }
  }

  /** ParentBelowRoot for several results: the wrapper is one step below the root, the results two. */
  lemma SeveralBelowRoot(w: World, objects: seq<CombinedObject>, prefab: Prefab, prefix: string)
    requires |objects| > 1 && w.Valid()
    requires forall o :: o in objects ==> o.node in w.live && o.node != prefab.root
    requires prefab.root in w.live && prefab.root !in w.parent
    ensures prefab.root in ParentPlan(w, objects, prefab, prefix).live
    ensures prefab.root !in ParentPlan(w, objects, prefab, prefix).parent
    ensures Reaches(ParentPlan(w, objects, prefab, prefix).parent, prefab.root, w.nextId,
                    |ParentPlan(w, objects, prefab, prefix).parent|)
    ensures forall o :: o in objects ==>
      Reaches(ParentPlan(w, objects, prefab, prefix).parent, prefab.root, o.node,
              |ParentPlan(w, objects, prefab, prefix).parent|)
  {
    var r := ParentPlan(w, objects, prefab, prefix);
    ParentUnderRoot(w, objects, prefab, prefix);
    ParentSeveral(w, objects, prefab, prefix);
    TwoKeys(r.parent, w.nextId, objects[0].node);
    assert Reaches(r.parent, prefab.root, w.nextId, 1);
    ReachesMore(r.parent, prefab.root, w.nextId, 1, |r.parent|);
    forall o | o in objects
      ensures Reaches(r.parent, prefab.root, o.node, |r.parent|)
    {
      ReachesMore(r.parent, prefab.root, o.node, 2, |r.parent|);
    }
  }
}
