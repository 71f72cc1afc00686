/**
 * The per-bin result descriptor of CombinePrefabMeshes: for each closed bin,
 * the new node's name, its mesh (the merged mesh or the original one), whether
 * a mesh asset is written, its placement, and its renderer's settings.
 */
module Results {
  import opened Meshes

  /** The mesh a result node shows. */
  datatype MeshRef =
    | Original(meshId: int)                  // the single filter's own shared mesh, reused
    | Merged(meshId: int, vertexCount: nat)  // the mesh built by CombineMeshes from the bin

  /** Where a result node stands. */
  datatype Placement =
    | AtOrigin                   // merged vertices are already in world space
    | AtPositionOf(node: NodeId) // a reused mesh takes the original node's position

  /** What CombinePrefabMeshes makes of one bin. */
  datatype CombinedObject = CombinedObject(
    node: NodeId,
    name: string,
    mesh: MeshRef,
    assetWritten: bool,
    placement: Placement,
    mode: ShadowMode,
    material: MaterialId,
    layer: int)

  /** `s.Split(' ')[0]`: everything before the first space (all of `s` when it has none). */
  function FirstToken(s: string): (r: string)
    ensures |r| <= |s| && r == s[..|r|]
    ensures ' ' !in r
    ensures |r| < |s| ==> s[|r|] == ' '
  {
    if s == [] || s[0] == ' ' then [] else [s[0]] + FirstToken(s[1..])
  }

  /** The three properties of FirstToken determine it: it is the unique such prefix. */
  lemma {:induction false} FirstTokenUnique(s: string, t: string)
    requires |t| <= |s| && t == s[..|t|]
    requires ' ' !in t
    requires |t| < |s| ==> s[|t|] == ' '
    ensures t == FirstToken(s)
  {
    if s != [] && s[0] != ' ' {
      assert t != [] && t[0] == s[0];
      FirstTokenUnique(s[1..], t[1..]);
      assert t == [s[0]] + t[1..];
    } else if s != [] {
      assert t == [];
    }
  }

  function DigitChar(d: nat): char
    requires d < 10
  {
    "0123456789"[d]
  }

  predicate AllDigits(s: string)
  {
    forall k :: 0 <= k < |s| ==> '0' <= s[k] <= '9'
  }

  /** The decimal digits of `n`, most significant first. */
  function NatToString(n: nat): (r: string)
    ensures r != [] && AllDigits(r)
    decreases n
  {
    if n < 10 then [DigitChar(n)] else NatToString(n / 10) + [DigitChar(n % 10)]
  }

  /** `int.ToString()`: a minus sign for negative numbers, then the decimal digits. */
  function IntToString(i: int): (r: string)
    ensures r != [] && ' ' !in r && '_' !in r
  {
    if i < 0 then "-" + NatToString(-i) else NatToString(i)
  }

  /** The value of a string of decimal digits. */
  function DigitsValue(s: string): int
    requires AllDigits(s)
  {
    if s == [] then 0
    else
      DigitsValue(s[..|s| - 1]) * 10 + ((s[|s| - 1] as int) - ('0' as int))
  }

  /** Reading the digits back gives the number: the decimal text of an id identifies it. */
  lemma {:induction false} NatToStringValue(n: nat)
    ensures DigitsValue(NatToString(n)) == n
    decreases n
  {
    var r := NatToString(n);
    if n >= 10 {
      NatToStringValue(n / 10);
      assert r[..|r| - 1] == NatToString(n / 10);
    }
  }

  lemma NatToStringInjective(a: nat, b: nat)
    requires a != b
    ensures NatToString(a) != NatToString(b)
  {
    NatToStringValue(a);
    NatToStringValue(b);
  }

  /** Distinct instance ids have distinct decimal texts. */
  lemma IntToStringInjective(i: int, j: int)
    requires i != j
    ensures IntToString(i) != IntToString(j)
  {
    var si, sj := IntToString(i), IntToString(j);
    if i < 0 && j < 0 {
      NatToStringInjective(-i, -j);
      assert si[1..] == NatToString(-i) && sj[1..] == NatToString(-j);
    } else if i >= 0 && j >= 0 {
      NatToStringInjective(i, j);
    } else if i < 0 {
      assert si[0] == '-' && '0' <= NatToString(j)[0];
    } else {
      assert sj[0] == '-' && '0' <= NatToString(i)[0];
    }
  }

  /** `materialName`: the material's first token, "_", and the combined mesh's instance id. */
  function MaterialName(materialText: string, meshId: int): string
  {
    FirstToken(materialText) + "_" + IntToString(meshId)
  }

  /** The renderer's mode: On and Off are kept, every other value becomes ShadowsOnly. */
  function RendererMode(castShadows: ShadowMode): (r: ShadowMode)
    ensures r != TwoSided
    ensures castShadows != TwoSided ==> r == castShadows
    ensures castShadows == TwoSided ==> r == ShadowsOnly
  {
    match castShadows
    case On => On
    case Off => Off
    case _ => ShadowsOnly
  }

  /** `goName`: with several material groups, the material name; otherwise the prefab's name. */
  function ObjectName(pass: ClassPass, prefab: Prefab, severalGroups: bool, key: MaterialId, meshId: int): string
  {
    if severalGroups then pass.prefix + MaterialName(prefab.materialText(key), meshId)
    else pass.prefix + prefab.name
  }

  /**
   * The result for one bin. `meshId` is the instance id of the mesh that
   * CombineMeshes filled (one is made for every bin, even a single-filter
   * one), `node` that of the new node, and `severalGroups` whether the
   * class has more than one material group.
   */
  function BinObject(bin: seq<MeshFilter>, key: MaterialId, pass: ClassPass, prefab: Prefab,
                     severalGroups: bool, meshId: int, node: NodeId): (r: CombinedObject)
    requires bin != []
    ensures r.node == node
    ensures r.assetWritten <==> |bin| > 1
    ensures |bin| == 1 ==> r.mesh == Original(bin[0].meshId) && r.placement == AtPositionOf(bin[0].node)
    ensures |bin| > 1 ==> r.mesh == Merged(meshId, VertexSum(bin)) && r.placement == AtOrigin
    ensures r.material == key && r.layer == CombinedLayer
    ensures r.mode == RendererMode(pass.castShadows) && r.mode != TwoSided
    ensures r.name == ObjectName(pass, prefab, severalGroups, key, meshId)
  {
    var name := ObjectName(pass, prefab, severalGroups, key, meshId);
    var single := |bin| == 1;
    CombinedObject(
      node, name,
      if single then Original(bin[0].meshId) else Merged(meshId, VertexSum(bin)),
      !single,
      if single then AtPositionOf(bin[0].node) else AtOrigin,
      RendererMode(pass.castShadows), key, CombinedLayer)
  }

  /** The text after the last occurrence of `c` in `t` (all of `t` when `c` does not occur). */
  function AfterLast(t: string, c: char): (r: string)
    ensures c !in r
  {
    if t == [] then []
    else if t[|t| - 1] == c then []
    else AfterLast(t[..|t| - 1], c) + [t[|t| - 1]]
  }

  /** Whatever precedes it, the text after a separator that does not occur in `s` is `s`. */
  lemma {:induction false} AfterLastSuffix(a: string, c: char, s: string)
    requires c !in s
    ensures AfterLast(a + [c] + s, c) == s
  {
    var t := a + [c] + s;
    if s == [] {
      assert t[|t| - 1] == c;
    } else {
      var init := s[..|s| - 1];
      assert t[..|t| - 1] == a + [c] + init;
      AfterLastSuffix(a, c, init);
      assert s == init + [s[|s| - 1]];
    }
  }

  /** A material name starts with the material's first token, and the id's text follows its last '_'. */
  lemma MaterialNameParts(materialText: string, meshId: int)
    ensures |FirstToken(materialText)| < |MaterialName(materialText, meshId)|
    ensures MaterialName(materialText, meshId)[..|FirstToken(materialText)|] == FirstToken(materialText)
    ensures AfterLast(MaterialName(materialText, meshId), '_') == IntToString(meshId)
  {
    assert MaterialName(materialText, meshId) == FirstToken(materialText) + ['_'] + IntToString(meshId);
    AfterLastSuffix(FirstToken(materialText), '_', IntToString(meshId));
  }

  /**
   * A node name starts with the class prefix; with several material groups
   * the text after its last '_' is the combined mesh's id.
   */
  lemma ObjectNameParts(pass: ClassPass, prefab: Prefab, severalGroups: bool, key: MaterialId, meshId: int)
    ensures |pass.prefix| <= |ObjectName(pass, prefab, severalGroups, key, meshId)|
    ensures ObjectName(pass, prefab, severalGroups, key, meshId)[..|pass.prefix|] == pass.prefix
    ensures severalGroups ==> AfterLast(ObjectName(pass, prefab, severalGroups, key, meshId), '_') == IntToString(meshId)
  {
    if severalGroups {
      var token := FirstToken(prefab.materialText(key));
      assert ObjectName(pass, prefab, severalGroups, key, meshId) == (pass.prefix + token) + ['_'] + IntToString(meshId);
      AfterLastSuffix(pass.prefix + token, '_', IntToString(meshId));
    }
  }

  /**
   * With several material groups, two results of one class whose combined
   * meshes have different instance ids get different names.
   */
  lemma DistinctNames(pass: ClassPass, prefab: Prefab, key1: MaterialId, key2: MaterialId, id1: int, id2: int)
    requires id1 != id2
    ensures ObjectName(pass, prefab, true, key1, id1) != ObjectName(pass, prefab, true, key2, id2)
  {
    ObjectNameParts(pass, prefab, true, key1, id1);
    ObjectNameParts(pass, prefab, true, key2, id2);
    IntToStringInjective(id1, id2);
  }
}
