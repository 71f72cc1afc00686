/**
 * Material grouping of CombinePrefabMeshes: the filters of one shadow class
 * are gathered into a dictionary from their renderer's first shared material
 * to the filters that use it. The dictionary is modelled as the key
 * sequence plus a map, and its keys are taken to be enumerated in insertion
 * order: that is what a dictionary that never loses an entry does in
 * practice, although .NET leaves the enumeration order undefined.
 */
module Grouping {
  import opened Seqs
  import opened Meshes

  /**
   * A filter takes part in grouping when it is still alive (its node is in
   * the scene; a destroyed filter compares equal to null) and its shared mesh
   * is set.
   */
  predicate Usable(f: MeshFilter, live: set<NodeId>)
  {
    f.node in live && f.hasMesh
  }

  /** The usable filters, in their original order. */
  function UsableFilters(filters: seq<MeshFilter>, live: set<NodeId>): seq<MeshFilter>
  {
    Keep(filters, (f: MeshFilter) => Usable(f, live))
  }

  /** The filters whose first shared material is `key`, in their original order. */
  function WithMaterial(filters: seq<MeshFilter>, key: MaterialId): seq<MeshFilter>
  {
    Keep(filters, (f: MeshFilter) => f.material == key)
  }

  /** The materials of `filters`, each once, in the order they are first met. */
  function MaterialOrder(filters: seq<MeshFilter>): (keys: seq<MaterialId>)
  {
    if filters == [] then []
    else
      var earlier := MaterialOrder(filters[..|filters| - 1]);
      var m := filters[|filters| - 1].material;
      if m in earlier then earlier else earlier + [m]
  }

  /** The `for` loop that fills `materialToMeshFilterList`. */
  method GroupByMaterial(filters: seq<MeshFilter>, live: set<NodeId>)
    returns (keys: seq<MaterialId>, groups: map<MaterialId, seq<MeshFilter>>)
    ensures keys == MaterialOrder(UsableFilters(filters, live))
    ensures forall k :: k in groups <==> k in keys
    ensures forall k :: k in groups ==> groups[k] == WithMaterial(UsableFilters(filters, live), k)
  {
    keys, groups := [], map[];
    for i := 0 to |filters|
      invariant keys == MaterialOrder(UsableFilters(filters[..i], live))
      invariant forall k :: k in groups <==> k in keys
      invariant forall k :: k in groups ==> groups[k] == WithMaterial(UsableFilters(filters[..i], live), k)
    {
      assert filters[..i + 1][..i] == filters[..i];
      var filter := filters[i];
      ghost var before := UsableFilters(filters[..i], live);
      if filter.node !in live {
        // a destroyed filter compares equal to null and is skipped
        assert UsableFilters(filters[..i + 1], live) == before;
        continue;
      }
      if filter.hasMesh {
        var after := before + [filter];
        assert UsableFilters(filters[..i + 1], live) == after;
        assert after[..|before|] == before;
        assert forall k :: (WithMaterial(after, k)
                            == WithMaterial(before, k) + (if filter.material == k then [filter] else []));
        var material := filter.material;
        if material in groups {
          groups := groups[material := groups[material] + [filter]];
        } else {
          MaterialOrderMembers(before, material);
          KeepNone(before, (f: MeshFilter) => f.material == material);
          groups := groups[material := [filter]];
          keys := keys + [material];
        }
      } else {
        assert UsableFilters(filters[..i + 1], live) == before;
      }
    }
    assert filters[..|filters|] == filters;
  }

  /** A material is a key exactly when some filter uses it. */
  lemma {:induction false} MaterialOrderMembers(filters: seq<MeshFilter>, key: MaterialId)
    ensures key in MaterialOrder(filters) <==> exists f :: f in filters && f.material == key
  {
    if filters != [] {
      var init := filters[..|filters| - 1];
      assert filters == init + [filters[|filters| - 1]];
      MaterialOrderMembers(init, key);
    }
  }

  /** No material is a key twice: keys are compared by identity. */
  lemma {:induction false} MaterialOrderDistinct(filters: seq<MeshFilter>)
    ensures forall i, j :: 0 <= i < j < |MaterialOrder(filters)| ==>
      MaterialOrder(filters)[i] != MaterialOrder(filters)[j]
  {
    if filters != [] {
      MaterialOrderDistinct(filters[..|filters| - 1]);
    }
  }

  /**
   * Every usable filter lies in the list of its own material, as often as it
   * was given, and in no other list; a filter that is dead or has no mesh lies
   * in none. Every list keeps the original order and is not empty.
   */
  lemma GroupingPartition(filters: seq<MeshFilter>, live: set<NodeId>, f: MeshFilter)
    ensures Usable(f, live) && f in filters ==> f.material in MaterialOrder(UsableFilters(filters, live))
    ensures forall k :: multiset(WithMaterial(UsableFilters(filters, live), k))[f]
                        == if Usable(f, live) && f.material == k then multiset(filters)[f] else 0
  {
    var usable := UsableFilters(filters, live);
    KeepCount(filters, (g: MeshFilter) => Usable(g, live), f);
    forall k
      ensures multiset(WithMaterial(usable, k))[f]
        == if Usable(f, live) && f.material == k then multiset(filters)[f] else 0
    {
      KeepCount(usable, (g: MeshFilter) => g.material == k, f);
    }
    if Usable(f, live) && f in filters {
      assert f in usable;
      MaterialOrderMembers(usable, f.material);
    }
  }

  /** Each list keeps the original order and is non-empty. */
  lemma GroupingOrder(filters: seq<MeshFilter>, live: set<NodeId>, key: MaterialId)
    ensures IsSubsequence(WithMaterial(UsableFilters(filters, live), key), filters)
    ensures key in MaterialOrder(UsableFilters(filters, live)) ==>
      WithMaterial(UsableFilters(filters, live), key) != []
  {
    var usable := UsableFilters(filters, live);
    KeepOrder(filters, (g: MeshFilter) => Usable(g, live));
    KeepOrder(usable, (g: MeshFilter) => g.material == key);
    SubsequenceTrans(WithMaterial(usable, key), usable, filters);
    if key in MaterialOrder(usable) {
      MaterialOrderMembers(usable, key);
      var f :| f in usable && f.material == key;
      KeepCount(usable, (g: MeshFilter) => g.material == key, f);
    }
  }
}
