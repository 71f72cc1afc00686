/**
 * The entities the batching pass works on: mesh filters found under a prefab
 * root, their shadow-casting mode, and the vertex budget of one merged mesh.
 */
module Meshes {

  /** A scene node (a GameObject), identified by its instance id. */
  type NodeId = int

  /** A material, compared by identity (its instance id), never by its properties. */
  type MaterialId = int

  /** The renderer's shadow-casting mode. */
  datatype ShadowMode = On | Off | ShadowsOnly | TwoSided

  /**
   * One mesh filter: the node it sits on, whether its shared mesh is set (and,
   * if so, that mesh's id and vertex count), the first shared material of the
   * renderer on the same node, and that renderer's shadow-casting mode.
   * Whether the filter is still alive is not stored here: it is alive exactly
   * while its node is in the scene.
   */
  datatype MeshFilter = MeshFilter(
    node: NodeId,
    hasMesh: bool,
    meshId: int,
    vertexCount: nat,
    material: MaterialId,
    mode: ShadowMode)

  /**
   * The prefab being processed: its root node, its name, and the display
   * string of each material (what `Material.ToString()` returns).
   */
  datatype Prefab = Prefab(root: NodeId, name: string, materialText: MaterialId -> string)

  /** One shadow class of the pass: the mode handed to CombinePrefabMeshes and its name prefix. */
  datatype ClassPass = ClassPass(castShadows: ShadowMode, prefix: string)

  /** A merged mesh must stay strictly below this many vertices (16-bit indices). */
  const VertexLimit: nat := 65536

  /** The layer every combined node is put on. */
  const CombinedLayer: int := 9

  /** The total vertex count of a bin (the `meshBin.Sum(...)` of the packer). */
  function VertexSum(bin: seq<MeshFilter>): nat
  {
    if bin == [] then 0 else VertexSum(bin[..|bin| - 1]) + bin[|bin| - 1].vertexCount
  }

  /** No filter of a bin has more vertices than the whole bin. */
  lemma {:induction false} VertexSumBound(bin: seq<MeshFilter>, k: nat)
    requires k < |bin|
    ensures bin[k].vertexCount <= VertexSum(bin)
  {
    if k < |bin| - 1 {
      VertexSumBound(bin[..|bin| - 1], k);
    }
  }

  /** Adding a filter to a bin adds its vertex count to the total. */
  lemma VertexSumSnoc(bin: seq<MeshFilter>, f: MeshFilter)
    ensures VertexSum(bin + [f]) == VertexSum(bin) + f.vertexCount
  {
    assert (bin + [f])[..|bin|] == bin;
  }
}
