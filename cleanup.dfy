/**
 * DeletePrefabMeshes: every original filter of a class that is still alive
 * has its node destroyed, with everything below it.
 */
module Cleanup {
  import opened Meshes
  import opened Scenes

  /**
   * One step of the loop: a filter already destroyed (equal to null) is
   * skipped. Afterwards the node is not alive; nodes only leave the scene,
   * a node that is not below it stays, and when it was alive nothing below it
   * survives; nothing but the live set changes.
   */
  function DestroyIfAlive(w: World, n: NodeId): (r: World)
    ensures r == w.(live := r.live) && r.live <= w.live
    ensures n !in r.live
    ensures n !in w.live ==> r == w
    ensures forall x :: x in w.live && !Reaches(w.parent, n, x, |w.parent|) ==> x in r.live
    ensures n in w.live ==> forall x :: Reaches(w.parent, n, x, |w.parent|) ==> x !in r.live
  {
    if n in w.live then w.(live := w.live - Subtree(w, n)) else w
  }

  /** The scene after the loop over `filters`, in their order. */
  function DeleteAll(w: World, filters: seq<MeshFilter>): World
    decreases |filters|
  {
    if filters == [] then w else DeleteAll(DestroyIfAlive(w, filters[0].node), filters[1..])
  }

  method DeletePrefabMeshes(scene: Scene, filters: seq<MeshFilter>)
    modifies scene
    ensures scene.State() == DeleteAll(old(scene.State()), filters)
  {
    for i := 0 to |filters|
      invariant DeleteAll(scene.State(), filters[i..]) == DeleteAll(old(scene.State()), filters)
    {
      assert filters[i..][1..] == filters[i + 1..];
      if filters[i].node !in scene.live {
        continue;
      }
      scene.DestroyImmediate(filters[i].node);
    }
  }

  /**
   * A node with no parent entry (the prefab root) can leave the scene only
   * through its own filter, and then everything below it goes with it: when
   * it is alive and one of the filters sits on it, nothing below it survives.
   */
  lemma {:induction false} DeleteAllTop(w: World, filters: seq<MeshFilter>, top: NodeId)
    requires top in w.live && top !in w.parent
    requires exists f :: f in filters && f.node == top
    ensures forall x :: Reaches(w.parent, top, x, |w.parent|) ==> x !in DeleteAll(w, filters).live
    decreases |filters|
  {
    var w1 := DestroyIfAlive(w, filters[0].node);
    DeleteAllFacts(w1, filters[1..]);
    assert DeleteAll(w, filters) == DeleteAll(w1, filters[1..]);
    if filters[0].node != top {
      assert !Reaches(w.parent, filters[0].node, top, |w.parent|);
      var f :| f in filters && f.node == top;
      assert f in filters[1..];
      DeleteAllTop(w1, filters[1..], top);
    }
  }

  /**
   * Afterwards no filter's node is alive; only nodes leave the scene, and a
   * node that is below none of the filters' nodes stays; the parent map, the
   * names, the id counter, the assets and the saved flag are untouched.
   */
  lemma {:induction false} DeleteAllFacts(w: World, filters: seq<MeshFilter>)
    ensures var r := DeleteAll(w, filters);
      && r == w.(live := r.live)
      && r.live <= w.live
      && (forall f :: f in filters ==> f.node !in r.live)
      && (forall x :: x in w.live && (forall f :: f in filters ==> !Reaches(w.parent, f.node, x, |w.parent|)) ==>
            x in r.live)
    decreases |filters|
  {
    if filters != [] {
      var w1 := DestroyIfAlive(w, filters[0].node);
      DeleteAllFacts(w1, filters[1..]);
      var r := DeleteAll(w, filters);
      assert r == DeleteAll(w1, filters[1..]);
      assert forall f :: f in filters ==> f == filters[0] || f in filters[1..];
      assert Reaches(w.parent, filters[0].node, filters[0].node, |w.parent|);
    }
  }
}
