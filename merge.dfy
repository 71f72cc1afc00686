/**
 * MergeProcess after the prefab is loaded: classify the filters by shadow
 * mode, then for ShadowsOnly, On and Off in that order combine the class,
 * hang its results under the root and destroy its originals, and finally
 * save the prefab. Nothing at all happens when no filter was found.
 */
module Merge {
  import opened Seqs
  import opened Meshes
  import opened Classify
  import opened Grouping
  import opened Results
  import opened Scenes
  import opened Combine
  import opened Parenting
  import opened Cleanup

  const ShadowsOnlyPass: ClassPass := ClassPass(ShadowsOnly, "CombinedMeshesShadowsOnly_")
  const ShadowsPass: ClassPass := ClassPass(On, "CombinedMeshesShadows_")
  const NoShadowsPass: ClassPass := ClassPass(Off, "CombinedMeshesNoShadows_")

  /**
   * One class: skipped when the list is empty; when CombinePrefabMeshes
   * returns nothing, nothing is parented or destroyed.
   */
  function ClassStep(w: World, members: seq<MeshFilter>, pass: ClassPass, prefab: Prefab): World
  {
    if members == [] then w
    else
      var combined := CombineSpec(w, members, pass, prefab);
      if combined.1 == [] then combined.0
      else DeleteAll(ParentPlan(combined.0, combined.1, prefab, pass.prefix), members)
  }

  /** The whole pass over the filters found under the root, in discovery order. */
  function MergeSpec(w: World, filters: seq<MeshFilter>, prefab: Prefab): World
  {
    if filters == [] then w
    else
      var w1 := ClassStep(w, OfMode(filters, ShadowsOnly), ShadowsOnlyPass, prefab);
      var w2 := ClassStep(w1, OfMode(filters, On), ShadowsPass, prefab);
      var w3 := ClassStep(w2, OfMode(filters, Off), NoShadowsPass, prefab);
      w3.(saved := true)
  }

  method ProcessClass(scene: Scene, members: seq<MeshFilter>, pass: ClassPass, prefab: Prefab)
    modifies scene
    ensures scene.State() == ClassStep(old(scene.State()), members, pass, prefab)
  {
    if |members| != 0 {
      var objects := CombinePrefabMeshes(scene, members, pass, prefab);
      if |objects| != 0 {
        ParentMeshesToPrefab(scene, objects, prefab, pass.prefix);
        DeletePrefabMeshes(scene, members);
      }
    }
  }

  method MergeProcess(scene: Scene, filters: seq<MeshFilter>, prefab: Prefab)
    modifies scene
    ensures scene.State() == MergeSpec(old(scene.State()), filters, prefab)
  {
    if |filters| == 0 {
      return;
    }
    var shadowsOnly, on, off := ClassifyByShadowMode(filters);
    ProcessClass(scene, shadowsOnly, ShadowsOnlyPass, prefab);
    ProcessClass(scene, on, ShadowsPass, prefab);
    ProcessClass(scene, off, NoShadowsPass, prefab);
    scene.Save();
  }

  /**
   * One class step keeps every live id below the counter, adds only nodes
   * it created (ids from the counter's value on), appends exactly the merged
   * meshes' assets of its results, and does not save.
   */
  lemma ClassStepFacts(w: World, members: seq<MeshFilter>, pass: ClassPass, prefab: Prefab)
    requires w.Valid()
    ensures ClassStep(w, members, pass, prefab).Valid()
    ensures w.nextId <= ClassStep(w, members, pass, prefab).nextId
    ensures forall x :: x in ClassStep(w, members, pass, prefab).live && x !in w.live ==>
      w.nextId <= x < ClassStep(w, members, pass, prefab).nextId
    ensures ClassStep(w, members, pass, prefab).assets == w.assets + AssetsOf(CombineSpec(w, members, pass, prefab).1)
    ensures ClassStep(w, members, pass, prefab).saved == w.saved
  {
    var r := ClassStep(w, members, pass, prefab);
    var combined := CombineSpec(w, members, pass, prefab);
    CombineFresh(w, members, pass, prefab);
    CombineEmpty(w, members, pass, prefab);
    if members == [] {
      assert combined.1 == [];
    } else if combined.1 != [] {
      var objects := combined.1;
      var p := ParentPlan(combined.0, objects, prefab, pass.prefix);
      ParentFrame(combined.0, objects, prefab, pass.prefix);
      DeleteAllFacts(p, members);
    }
  }

  /**
   * When some filter of the class is usable, every filter of the class has
   * its node destroyed afterwards, including those skipped for having no
   * mesh; when none is usable, the step changes nothing.
   */
  lemma ClassStepDeletes(w: World, members: seq<MeshFilter>, pass: ClassPass, prefab: Prefab)
    ensures (exists f :: f in members && Usable(f, w.live)) ==>
      forall f :: f in members ==> f.node !in ClassStep(w, members, pass, prefab).live
    ensures (forall f :: f in members ==> !Usable(f, w.live)) ==> ClassStep(w, members, pass, prefab) == w
  {
    CombineEmpty(w, members, pass, prefab);
    var combined := CombineSpec(w, members, pass, prefab);
    if combined.1 != [] {
      DeleteAllFacts(ParentPlan(combined.0, combined.1, prefab, pass.prefix), members);
    }
  }

  /**
   * The root's own filter is one of the filters found (line 60). When the
   * root carries a filter of a class that yields any result, line 166
   * destroys the prefab root itself, whether or not that filter has a mesh
   * (the whole class list is deleted, line 89), and with it every node the
   * class step has just created and hung below it: the step leaves no new
   * node alive, not even its results.
   */
  lemma ClassStepRoot(w: World, members: seq<MeshFilter>, pass: ClassPass, prefab: Prefab)
    requires w.Valid()
    requires prefab.root in w.live && prefab.root !in w.parent
    requires exists f :: f in members && f.node == prefab.root
    requires exists g :: g in members && Usable(g, w.live)
    ensures prefab.root !in ClassStep(w, members, pass, prefab).live
    ensures forall o :: o in CombineSpec(w, members, pass, prefab).1 ==> o.node !in ClassStep(w, members, pass, prefab).live
    ensures forall x :: x in ClassStep(w, members, pass, prefab).live ==> x in w.live
  {
    var r := ClassStep(w, members, pass, prefab);
    var combined := CombineSpec(w, members, pass, prefab);
    CombineFresh(w, members, pass, prefab);
    CombineEmpty(w, members, pass, prefab);
    var objects := combined.1;
    var p := ParentPlan(combined.0, objects, prefab, pass.prefix);
    assert r == DeleteAll(p, members);
    ParentBelowRoot(combined.0, objects, prefab, pass.prefix);
    DeleteAllTop(p, members, prefab.root);
    DeleteAllFacts(p, members);
    forall x | x in p.live && x !in w.live
      ensures x !in r.live
    {
      if x in combined.0.live {
        assert x in NodesOf(objects);
        var o :| o in objects && o.node == x;
      }
    }
  }

  /**
   * The normal case, where no filter of the class sits on the prefab root
   * and every filter's node already existed: the cleanup destroys the
   * originals but neither the root nor anything the step created. Every
   * result survives, hung directly under the root when it is the only one,
   * and otherwise under a surviving wrapper that hangs under the root.
   */
  lemma ResultsSurvive(w: World, members: seq<MeshFilter>, pass: ClassPass, prefab: Prefab)
    requires w.Valid()
    requires prefab.root in w.live && prefab.root !in w.parent
    requires forall f :: f in members ==> f.node != prefab.root && f.node < w.nextId
    ensures prefab.root in ClassStep(w, members, pass, prefab).live
    ensures forall o :: o in CombineSpec(w, members, pass, prefab).1 ==>
      o.node in ClassStep(w, members, pass, prefab).live && o.node in ClassStep(w, members, pass, prefab).parent
    ensures |CombineSpec(w, members, pass, prefab).1| == 1 ==>
      ClassStep(w, members, pass, prefab).parent[CombineSpec(w, members, pass, prefab).1[0].node] == prefab.root
    ensures |CombineSpec(w, members, pass, prefab).1| > 1 ==>
      && CombineSpec(w, members, pass, prefab).0.nextId in ClassStep(w, members, pass, prefab).live
      && CombineSpec(w, members, pass, prefab).0.nextId in ClassStep(w, members, pass, prefab).parent
      && ClassStep(w, members, pass, prefab).parent[CombineSpec(w, members, pass, prefab).0.nextId] == prefab.root
      && forall o :: o in CombineSpec(w, members, pass, prefab).1 ==>
           ClassStep(w, members, pass, prefab).parent[o.node] == CombineSpec(w, members, pass, prefab).0.nextId
  {
    var r := ClassStep(w, members, pass, prefab);
    var combined := CombineSpec(w, members, pass, prefab);
    CombineFresh(w, members, pass, prefab);
    CombineEmpty(w, members, pass, prefab);
    var objects := combined.1;
    if members != [] && objects != [] {
      var p := ParentPlan(combined.0, objects, prefab, pass.prefix);
      var wrapper := combined.0.nextId;
      assert r == DeleteAll(p, members);
      if |objects| > 1 {
        ParentSeveral(combined.0, objects, prefab, pass.prefix);
      } else {
        ParentSingle(combined.0, objects, prefab, pass.prefix);
      }
      DeleteAllFacts(p, members);
      forall f | f in members
        ensures !Reaches(p.parent, f.node, prefab.root, |p.parent|)
      {
      }
      forall o | o in objects
        ensures o.node in r.live
      {
        forall f | f in members
          ensures !Reaches(p.parent, f.node, o.node, |p.parent|)
        {
          ChainReach(p.parent, prefab.root, o.node, f.node, |p.parent|);
        }
      }
      if |objects| > 1 {
        forall f | f in members
          ensures !Reaches(p.parent, f.node, wrapper, |p.parent|)
        {
          ChainReach(p.parent, prefab.root, wrapper, f.node, |p.parent|);
        }
      }
    }
  }

  /**
   * A ShadowsOnly filter on the prefab root, with or without a mesh, while
   * some ShadowsOnly filter is usable: the first class step destroys the
   * root, no later step brings it back, and the pass still records the save
   * of the destroyed root.
   */
  lemma MergeRootDestroyed(w: World, filters: seq<MeshFilter>, prefab: Prefab)
    requires w.Valid()
    requires prefab.root in w.live && prefab.root !in w.parent
    requires exists f :: f in filters && f.node == prefab.root && f.mode == ShadowsOnly
    requires exists g :: g in filters && g.mode == ShadowsOnly && Usable(g, w.live)
    ensures prefab.root !in MergeSpec(w, filters, prefab).live
    ensures MergeSpec(w, filters, prefab).saved
  {
    var f :| f in filters && f.node == prefab.root && f.mode == ShadowsOnly;
    var g :| g in filters && g.mode == ShadowsOnly && Usable(g, w.live);
    ClassifyPartition(filters, f);
    ClassifyPartition(filters, g);
    assert f in OfMode(filters, ShadowsOnly) by {
      assert multiset(OfMode(filters, ShadowsOnly))[f] == multiset(filters)[f];
    }
    assert g in OfMode(filters, ShadowsOnly) by {
      assert multiset(OfMode(filters, ShadowsOnly))[g] == multiset(filters)[g];
    }
    ClassStepRoot(w, OfMode(filters, ShadowsOnly), ShadowsOnlyPass, prefab);
    MergeOrder(w, filters, prefab);
    var w1 := ClassStep(w, OfMode(filters, ShadowsOnly), ShadowsOnlyPass, prefab);
    ClassStepFacts(w, OfMode(filters, ShadowsOnly), ShadowsOnlyPass, prefab);
    ClassStepFacts(w1, OfMode(filters, On), ShadowsPass, prefab);
    var w2 := ClassStep(w1, OfMode(filters, On), ShadowsPass, prefab);
    ClassStepFacts(w2, OfMode(filters, Off), NoShadowsPass, prefab);
  }

  /**
   * With no filter found the pass does nothing and does not save. When
   * filters were found but none of them is usable in its class (every one
   * is TwoSided, has no mesh, or is dead), the only effect is the save.
   */
  lemma MergeNothingToDo(w: World, filters: seq<MeshFilter>, prefab: Prefab)
    requires forall f :: f in filters && f.mode != TwoSided ==> !Usable(f, w.live)
    ensures MergeSpec(w, filters, prefab) == if filters == [] then w else w.(saved := true)
  {
    if filters != [] {
      forall m | m in {ShadowsOnly, On, Off}
        ensures forall f :: f in OfMode(filters, m) ==> !Usable(f, w.live)
      {
        ClassifyOrder(filters, m);
        forall f | f in OfMode(filters, m)
          ensures !Usable(f, w.live)
        {
          SubsequenceMultiset(OfMode(filters, m), filters);
          assert multiset(OfMode(filters, m))[f] > 0;
        }
      }
      ClassStepDeletes(w, OfMode(filters, ShadowsOnly), ShadowsOnlyPass, prefab);
      ClassStepDeletes(w, OfMode(filters, On), ShadowsPass, prefab);
      ClassStepDeletes(w, OfMode(filters, Off), NoShadowsPass, prefab);
    }
  }

  /**
   * The classes are processed ShadowsOnly, then On, then Off: every node
   * that the ShadowsOnly step creates is created before (has a smaller id on
   * the counter than) every node the On step creates, and those before every
   * node the Off step creates; the saved flag is set last.
   */
  lemma MergeOrder(w: World, filters: seq<MeshFilter>, prefab: Prefab)
    requires w.Valid() && filters != []
    ensures var w1 := ClassStep(w, OfMode(filters, ShadowsOnly), ShadowsOnlyPass, prefab);
      var w2 := ClassStep(w1, OfMode(filters, On), ShadowsPass, prefab);
      var w3 := ClassStep(w2, OfMode(filters, Off), NoShadowsPass, prefab);
      && MergeSpec(w, filters, prefab) == w3.(saved := true)
      && MergeSpec(w, filters, prefab).Valid()
      && w.nextId <= w1.nextId <= w2.nextId <= w3.nextId
      && (forall x, y :: x in w1.live - w.live && y in w2.live - w1.live ==> x < y)
      && (forall x, y :: x in w2.live - w1.live && y in w3.live - w2.live ==> x < y)
  {
    var w1 := ClassStep(w, OfMode(filters, ShadowsOnly), ShadowsOnlyPass, prefab);
    var w2 := ClassStep(w1, OfMode(filters, On), ShadowsPass, prefab);
    ClassStepFacts(w, OfMode(filters, ShadowsOnly), ShadowsOnlyPass, prefab);
    ClassStepFacts(w1, OfMode(filters, On), ShadowsPass, prefab);
    ClassStepFacts(w2, OfMode(filters, Off), NoShadowsPass, prefab);
  }
}
