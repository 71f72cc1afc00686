/**
 * The loaded prefab contents as the batching pass sees them: which nodes are
 * alive, each node's parent, the names of the nodes it creates, the id
 * counter Unity draws instance ids from, the mesh assets written so far and
 * whether the prefab was saved.
 */
module Scenes {
  import opened Meshes

  datatype World = World(
    live: set<NodeId>,
    parent: map<NodeId, NodeId>,
    name: map<NodeId, string>,
    nextId: int,
    assets: seq<int>,
    saved: bool)
  {
    /**
     * Every live node, and every node with a parent entry, got its id before
     * the counter's current value; so the node the counter names next has
     * neither.
     */
    predicate Valid()
    {
      && (forall n :: n in live ==> n < nextId)
      && (forall n :: n in parent ==> n < nextId)
    }
  }

  /**
   * `ancestor` is `x` itself or is met walking up from `x` through the parent
   * map within `fuel` steps.
   */
  predicate Reaches(parent: map<NodeId, NodeId>, ancestor: NodeId, x: NodeId, fuel: nat)
    decreases fuel
  {
    x == ancestor || (fuel > 0 && x in parent && Reaches(parent, ancestor, parent[x], fuel - 1))
  }

  /** A walk that stays within `fuel` steps also stays within any larger bound. */
  lemma {:induction false} ReachesMore(parent: map<NodeId, NodeId>, ancestor: NodeId, x: NodeId, fuel: nat, more: nat)
    requires Reaches(parent, ancestor, x, fuel) && fuel <= more
    ensures Reaches(parent, ancestor, x, more)
    decreases fuel
  {
    if x != ancestor {
      ReachesMore(parent, ancestor, parent[x], fuel - 1, more - 1);
    }
  }

  /**
   * When the walk up from `x` is `x`, its parent and (perhaps) that node's
   * parent, ending at a `top` without a parent entry, only those nodes reach
   * `x`: any other node has none of them below it.
   */
  lemma ChainReach(parent: map<NodeId, NodeId>, top: NodeId, x: NodeId, a: NodeId, fuel: nat)
    requires top !in parent && x in parent
    requires parent[x] == top || (parent[x] in parent && parent[parent[x]] == top)
    requires a != x && a != parent[x] && a != top
    ensures !Reaches(parent, a, x, fuel)
  {
    if fuel > 0 {
      var y := parent[x];
      if y != top && fuel > 1 {
        assert !Reaches(parent, a, top, fuel - 2);
      }
    }
  }

  /** A map with two distinct keys has at least two entries. */
  lemma TwoKeys(parent: map<NodeId, NodeId>, a: NodeId, b: NodeId)
    requires a in parent && b in parent && a != b
    ensures |parent| >= 2
  {
    var others := parent.Keys - {a, b};
    assert parent.Keys == others + {a, b};
    assert |{a, b}| == 2;
  }

  /**
   * The live nodes that DestroyImmediate(n) takes with it: n and every live
   * node below it. A walk up an acyclic parent map visits at most |parent|
   * parents, so that fuel is exact.
   */
  function Subtree(w: World, n: NodeId): (r: set<NodeId>)
    ensures r <= w.live
    ensures n in w.live ==> n in r
  {
    set x | x in w.live && Reaches(w.parent, n, x, |w.parent|)
  }

  /** The editable prefab contents; every operation says what it does to State(). */
  class Scene {
    var live: set<NodeId>
    var parent: map<NodeId, NodeId>
    var name: map<NodeId, string>
    var nextId: int
    var assets: seq<int>
    var saved: bool

    function State(): World
      reads this
    {
      World(live, parent, name, nextId, assets, saved)
    }

    constructor (w: World)
      ensures State() == w
    {
      live, parent, name, nextId, assets, saved := w.live, w.parent, w.name, w.nextId, w.assets, w.saved;
    }

    /** A new engine object (a Mesh) takes the next instance id. */
    method NewObjectId() returns (id: int)
      modifies this
      ensures id == old(nextId)
      ensures State() == old(State()).(nextId := id + 1)
    {
      id := nextId;
      nextId := nextId + 1;
    }

    /** `new GameObject(nodeName)`: a fresh live node; in a Valid scene it has no parent entry. */
    method CreateNode(nodeName: string) returns (n: NodeId)
      modifies this
      ensures n == old(nextId)
      ensures old(State()).Valid() ==> n !in old(live) && n !in parent
      ensures State() == old(State()).(live := old(live) + {n}, name := old(name)[n := nodeName], nextId := n + 1)
    {
      n := nextId;
      nextId := nextId + 1;
      live := live + {n};
      name := name[n := nodeName];
    }

    /** `transform.parent = ...` / `transform.SetParent(...)`. */
    method SetParent(child: NodeId, newParent: NodeId)
      modifies this
      ensures State() == old(State()).(parent := old(parent)[child := newParent])
    {
      parent := parent[child := newParent];
    }

    /** `Object.DestroyImmediate(node)`: the node and everything below it leave the scene. */
    method DestroyImmediate(n: NodeId)
      modifies this
      ensures State() == old(State()).(live := old(live) - Subtree(old(State()), n))
    {
      live := live - Subtree(State(), n);
    }

    /** `AssetDatabase.CreateAsset(mesh, path)`; the path is not modelled. */
    method CreateAsset(meshId: int)
      modifies this
      ensures State() == old(State()).(assets := old(assets) + [meshId])
    {
      assets := assets + [meshId];
    }

    /** `PrefabUtility.SaveAsPrefabAsset(...)`. */
    method Save()
      modifies this
      ensures State() == old(State()).(saved := true)
    {
      saved := true;
    }
  }
}
