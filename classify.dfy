/**
 * The shadow-mode classifier of MergeProcess: the mesh filters found under the
 * prefab root are split into the ShadowsOnly, On and Off lists. Filters whose
 * renderer has any other shadow-casting mode (TwoSided) are dropped.
 */
module Classify {
  import opened Seqs
  import opened Meshes

  /** The filters whose renderer has shadow-casting mode `m`, in discovery order. */
  function OfMode(filters: seq<MeshFilter>, m: ShadowMode): seq<MeshFilter>
  {
    Keep(filters, (f: MeshFilter) => f.mode == m)
  }

  /** The `foreach` over the discovered filters that fills the three lists. */
  method ClassifyByShadowMode(filters: seq<MeshFilter>)
    returns (shadowsOnly: seq<MeshFilter>, on: seq<MeshFilter>, off: seq<MeshFilter>)
    ensures shadowsOnly == OfMode(filters, ShadowsOnly)
    ensures on == OfMode(filters, On)
    ensures off == OfMode(filters, Off)
  {
    shadowsOnly, on, off := [], [], [];
    for i := 0 to |filters|
      invariant shadowsOnly == OfMode(filters[..i], ShadowsOnly)
      invariant on == OfMode(filters[..i], On)
      invariant off == OfMode(filters[..i], Off)
    {
      assert filters[..i + 1][..i] == filters[..i];
      var filter := filters[i];
      if filter.mode == ShadowsOnly {
        shadowsOnly := shadowsOnly + [filter];
      }
      if filter.mode == On {
        on := on + [filter];
      }
      if filter.mode == Off {
        off := off + [filter];
      }
    }
    assert filters[..|filters|] == filters;
  }

  /**
   * The three lists partition the filters that are not TwoSided: each such
   * filter is in exactly the list of its own mode (as often as it was found),
   * and a TwoSided filter is in none.
   */
  lemma ClassifyPartition(filters: seq<MeshFilter>, f: MeshFilter)
    ensures multiset(OfMode(filters, ShadowsOnly))[f] == (if f.mode == ShadowsOnly then multiset(filters)[f] else 0)
    ensures multiset(OfMode(filters, On))[f] == (if f.mode == On then multiset(filters)[f] else 0)
    ensures multiset(OfMode(filters, Off))[f] == (if f.mode == Off then multiset(filters)[f] else 0)
    ensures multiset(OfMode(filters, ShadowsOnly))[f] + multiset(OfMode(filters, On))[f]
            + multiset(OfMode(filters, Off))[f]
            == (if f.mode == TwoSided then 0 else multiset(filters)[f])
  {
    KeepCount(filters, (g: MeshFilter) => g.mode == ShadowsOnly, f);
    KeepCount(filters, (g: MeshFilter) => g.mode == On, f);
    KeepCount(filters, (g: MeshFilter) => g.mode == Off, f);
  }

  /** Each list keeps the discovery order, and holds only filters of its mode. */
  lemma ClassifyOrder(filters: seq<MeshFilter>, m: ShadowMode)
    ensures IsSubsequence(OfMode(filters, m), filters)
    ensures forall f :: f in OfMode(filters, m) ==> f.mode == m
  {
    KeepOrder(filters, (g: MeshFilter) => g.mode == m);
  }
}
