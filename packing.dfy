/**
 * The greedy "skip and retry" packer of CombinePrefabMeshes: the filters of one
 * material group are split into bins whose vertex total stays below
 * VertexLimit. The first unplaced filter seeds a bin; every later filter that
 * still fits joins it and is removed; filters that do not fit stay, in order,
 * for the next bin.
 */
module Packing {
  import opened Seqs
  import opened Meshes

  /**
   * One scan of the inner loop: offer every filter of `rest`, in order, to
   * `bin`. Returns the filled bin and the filters that were skipped.
   */
  function Fill(bin: seq<MeshFilter>, rest: seq<MeshFilter>): (r: (seq<MeshFilter>, seq<MeshFilter>))
    ensures |r.0| + |r.1| == |bin| + |rest|
    ensures |bin| <= |r.0| && r.0[..|bin|] == bin
    decreases |rest|
  {
    if rest == [] then (bin, [])
    else if VertexSum(bin) + rest[0].vertexCount < VertexLimit then Fill(bin + [rest[0]], rest[1..])
    else
      var (b, skipped) := Fill(bin, rest[1..]);
      (b, [rest[0]] + skipped)
  }

  /** The next bin: seeded by the first unplaced filter, then filled from the others. */
  function NextBin(remaining: seq<MeshFilter>): (r: (seq<MeshFilter>, seq<MeshFilter>))
    requires remaining != []
    ensures r.0 != [] && r.0[0] == remaining[0]
    ensures |r.1| < |remaining|
  {
    Fill([remaining[0]], remaining[1..])
  }

  /** All bins of a material group, in the order the packer closes them. */
  function Pack(group: seq<MeshFilter>): (bins: seq<seq<MeshFilter>>)
    ensures forall k :: 0 <= k < |bins| ==> bins[k] != []
    ensures bins == [] <==> group == []
    decreases |group|
  {
    if group == [] then []
    else
      var (b, rest) := NextBin(group);
      [b] + Pack(rest)
  }

  /** The filters still unplaced after the first `k` bins were closed. */
  function Unplaced(group: seq<MeshFilter>, k: nat): seq<MeshFilter>
    decreases k
  {
    if k == 0 || group == [] then group else Unplaced(NextBin(group).1, k - 1)
  }

  /**
   * The packer's inner loop (the body of `while (meshesWithSameMaterial.Count > 0)`):
   * take the seed, then walk the list with `RemoveAt(i); i--` for every filter
   * that fits and a plain step over every filter that does not.
   */
  method TakeBin(remaining: seq<MeshFilter>) returns (bin: seq<MeshFilter>, rest: seq<MeshFilter>)
    requires remaining != []
    ensures (bin, rest) == NextBin(remaining)
    ensures bin != [] && bin[0] == remaining[0] && |rest| < |remaining|
    ensures VertexSum(bin) < VertexLimit || (|bin| == 1 && bin[0].vertexCount >= VertexLimit)
    ensures forall r :: r in rest ==> VertexSum(bin) + r.vertexCount >= VertexLimit
  {
    bin := [remaining[0]];
    rest := remaining[1..];
    ghost var target := NextBin(remaining);
    var i: int := 0;
    while i < |rest|
      invariant 0 <= i <= |rest|
      invariant Fill(bin, rest[i..]).0 == target.0
      invariant rest[..i] + Fill(bin, rest[i..]).1 == target.1
    {
      if VertexSum(bin) + rest[i].vertexCount < VertexLimit {
        assert rest[i..][1..] == rest[i + 1..];
        bin := bin + [rest[i]];
        rest := rest[..i] + rest[i + 1..];
        i := i - 1;
      } else {
        assert rest[i..][1..] == rest[i + 1..];
        assert rest[..i + 1] == rest[..i] + [rest[i]];
      }
      i := i + 1;
    }
    assert rest[..i] == rest && rest[i..] == [];
    assert Fill(bin, rest[i..]) == (bin, []);
    assert bin == target.0;
    assert rest == target.1;
    FillCapacity([remaining[0]], remaining[1..]);
    FillMaximal([remaining[0]], remaining[1..]);
  }

  /** The next bin and the filters it leaves are a permutation of the unplaced filters. */
  lemma NextBinPermutation(remaining: seq<MeshFilter>)
    requires remaining != []
    ensures multiset(NextBin(remaining).0) + multiset(NextBin(remaining).1) == multiset(remaining)
  {
    FillMultiset([remaining[0]], remaining[1..]);
    assert remaining == [remaining[0]] + remaining[1..];
  }

  /** Filling loses and duplicates nothing: bin and skipped filters together are the input. */
  lemma {:induction false} FillMultiset(bin: seq<MeshFilter>, rest: seq<MeshFilter>)
    ensures multiset(Fill(bin, rest).0) + multiset(Fill(bin, rest).1) == multiset(bin) + multiset(rest)
    decreases |rest|
  {
    if rest != [] {
      assert rest == [rest[0]] + rest[1..];
      if VertexSum(bin) + rest[0].vertexCount < VertexLimit {
        var bin' := bin + [rest[0]];
        FillMultiset(bin', rest[1..]);
        var inner := Fill(bin', rest[1..]);
        var outer := Fill(bin, rest);
        assert outer == inner;
        assert multiset(bin') + multiset(rest[1..]) == multiset(bin) + multiset(rest);
        assert multiset(inner.0) + multiset(inner.1) == multiset(bin) + multiset(rest);
      } else {
        FillMultiset(bin, rest[1..]);
        var inner := Fill(bin, rest[1..]);
        var outer := Fill(bin, rest);
        assert outer.0 == inner.0 && outer.1 == [rest[0]] + inner.1;
        assert multiset(outer.1) == multiset([rest[0]]) + multiset(inner.1);
        assert multiset(inner.0) + multiset(inner.1) == multiset(bin) + multiset(rest[1..]);
        assert multiset(rest) == multiset([rest[0]]) + multiset(rest[1..]);
        forall x
          ensures (multiset(outer.0) + multiset(outer.1))[x] == (multiset(bin) + multiset(rest))[x]
        {
          assert (multiset(inner.0) + multiset(inner.1))[x] == (multiset(bin) + multiset(rest[1..]))[x];
        }
      }
    }
  }

  /** Both the filters added to the bin and the skipped ones keep the input order. */
  lemma {:induction false} FillOrder(bin: seq<MeshFilter>, rest: seq<MeshFilter>)
    ensures IsSubsequence(Fill(bin, rest).0[|bin|..], rest)
    ensures IsSubsequence(Fill(bin, rest).1, rest)
    decreases |rest|
  {
    var (b, s) := Fill(bin, rest);
    if rest == [] {
      assert b[|bin|..] == [];
    } else if VertexSum(bin) + rest[0].vertexCount < VertexLimit {
      var bin' := bin + [rest[0]];
      FillOrder(bin', rest[1..]);
      assert b[|bin|..] == [rest[0]] + b[|bin'|..] by {
        assert b[..|bin'|] == bin';
      }
      assert b[|bin|..][1..] == b[|bin'|..];
      SubsequenceExtendFront(s, rest);
    } else {
      FillOrder(bin, rest[1..]);
      SubsequenceExtendFront(b[|bin|..], rest);
      assert s[1..] == Fill(bin, rest[1..]).1;
    }
  }

  /**
   * The capacity rule: a bin that starts under the limit stays under it, and a
   * bin that starts at or over the limit receives nothing.
   */
  lemma {:induction false} FillCapacity(bin: seq<MeshFilter>, rest: seq<MeshFilter>)
    ensures VertexSum(bin) < VertexLimit ==> VertexSum(Fill(bin, rest).0) < VertexLimit
    ensures VertexSum(bin) >= VertexLimit ==> Fill(bin, rest).0 == bin
    decreases |rest|
  {
    if rest != [] {
      if VertexSum(bin) + rest[0].vertexCount < VertexLimit {
        VertexSumSnoc(bin, rest[0]);
        FillCapacity(bin + [rest[0]], rest[1..]);
      } else {
        FillCapacity(bin, rest[1..]);
      }
    }
  }

  /**
   * Greedy maximality: when the scan ends, no skipped filter would fit into
   * the closed bin, and the bin only grew during the scan.
   */
  lemma {:induction false} FillMaximal(bin: seq<MeshFilter>, rest: seq<MeshFilter>)
    ensures VertexSum(bin) <= VertexSum(Fill(bin, rest).0)
    ensures forall r :: r in Fill(bin, rest).1 ==> VertexSum(Fill(bin, rest).0) + r.vertexCount >= VertexLimit
    decreases |rest|
  {
    if rest != [] {
      if VertexSum(bin) + rest[0].vertexCount < VertexLimit {
        VertexSumSnoc(bin, rest[0]);
        FillMaximal(bin + [rest[0]], rest[1..]);
      } else {
        FillMaximal(bin, rest[1..]);
      }
    }
  }

  /** The bins, laid end to end, are a permutation of the group. */
  lemma {:induction false} PackPermutation(group: seq<MeshFilter>)
    ensures multiset(Flatten(Pack(group))) == multiset(group)
    decreases |group|
  {
    if group != [] {
      var (b, rest) := NextBin(group);
      var bins := Pack(group);
      assert bins[0] == b && bins[1..] == Pack(rest);
      PackPermutation(rest);
      FillMultiset([group[0]], group[1..]);
      assert group == [group[0]] + group[1..];
    }
  }

  /** Every bin lists its filters in the group's order. */
  lemma {:induction false} PackOrder(group: seq<MeshFilter>)
    ensures forall k :: 0 <= k < |Pack(group)| ==> IsSubsequence(Pack(group)[k], group)
    decreases |group|
  {
    if group != [] {
      var (b, rest) := NextBin(group);
      var bins := Pack(group);
      FillOrder([group[0]], group[1..]);
      assert b == [group[0]] + b[1..] by {
        assert b[..1] == [group[0]];
      }
      assert IsSubsequence(b, group);
      PackOrder(rest);
      forall k | 1 <= k < |bins|
        ensures IsSubsequence(bins[k], group)
      {
        assert bins[k] == Pack(rest)[k - 1];
        SubsequenceTrans(bins[k], rest, group[1..]);
        SubsequenceExtendFront(bins[k], group);
      }
    }
  }

  /**
   * The capacity bound: every bin stays below VertexLimit, except a bin made
   * of a single filter that alone reaches the limit. So every filter of a bin
   * with several filters has fewer than VertexLimit vertices.
   */
  lemma {:induction false} PackCapacity(group: seq<MeshFilter>)
    ensures forall b: seq<MeshFilter> :: b in Pack(group) ==>
      VertexSum(b) < VertexLimit || (|b| == 1 && b[0].vertexCount >= VertexLimit)
    ensures forall b: seq<MeshFilter>, i :: b in Pack(group) && |b| > 1 && 0 <= i < |b| ==>
      b[i].vertexCount < VertexLimit
    decreases |group|
  {
    if group != [] {
      var (b, rest) := NextBin(group);
      PackCapacity(rest);
      assert VertexSum([group[0]]) == group[0].vertexCount by {
        VertexSumSnoc([], group[0]);
      }
      FillCapacity([group[0]], group[1..]);
    }
    forall b: seq<MeshFilter>, i | b in Pack(group) && |b| > 1 && 0 <= i < |b|
      ensures b[i].vertexCount < VertexLimit
    {
      VertexSumBound(b, i);
    }
  }

  /**
   * Skip-and-retry semantics: bin `k` is the next bin of what the first `k`
   * bins left unplaced, seeded by the first of those filters in group order;
   * what it leaves is an ordered subsequence of them, none of which would have
   * fitted into it; and packing stops exactly when nothing is left.
   */
  lemma {:induction false} PackGreedy(group: seq<MeshFilter>, k: nat)
    requires k < |Pack(group)|
    ensures Unplaced(group, k) != []
    ensures Pack(group)[k] == NextBin(Unplaced(group, k)).0
    ensures Pack(group)[k][0] == Unplaced(group, k)[0]
    ensures Unplaced(group, k + 1) == NextBin(Unplaced(group, k)).1
    ensures IsSubsequence(Unplaced(group, k + 1), Unplaced(group, k))
    ensures forall r :: r in Unplaced(group, k + 1) ==>
      VertexSum(Pack(group)[k]) + r.vertexCount >= VertexLimit
    ensures k + 1 == |Pack(group)| <==> Unplaced(group, k + 1) == []
    decreases k
  {
    var rest := NextBin(group).1;
    if k == 0 {
      var u := Unplaced(group, 0);
      FillOrder([u[0]], u[1..]);
      SubsequenceExtendFront(rest, u);
      FillMaximal([u[0]], u[1..]);
    } else {
      assert Pack(group)[k] == Pack(rest)[k - 1];
      PackGreedy(rest, k - 1);
    }
  }

  /**
   * When the filters of the group are distinct objects, each of them lands in
   * exactly one bin.
   */
  lemma {:induction false} PackPlacesOnce(group: seq<MeshFilter>, x: MeshFilter)
    requires forall y :: multiset(group)[y] <= 1
    requires x in group
    ensures exists k :: 0 <= k < |Pack(group)| && x in Pack(group)[k] &&
                        (forall j :: 0 <= j < |Pack(group)| && j != k ==> x !in Pack(group)[j])
    decreases |group|
  {
    var (b, rest) := NextBin(group);
    var bins := Pack(group);
    assert bins[0] == b && bins[1..] == Pack(rest);
    NextBinPermutation(group);
    if x in b {
      NotInLaterBins(group, x);
    } else {
      assert x in rest by {
        assert x in multiset(group);
      }
      assert forall y :: multiset(rest)[y] <= multiset(group)[y];
      PackPlacesOnce(rest, x);
      var k' :| 0 <= k' < |Pack(rest)| && x in Pack(rest)[k'] &&
                (forall j :: 0 <= j < |Pack(rest)| && j != k' ==> x !in Pack(rest)[j]);
      assert bins[k' + 1] == Pack(rest)[k'];
      forall j | 0 <= j < |bins| && j != k' + 1
        ensures x !in bins[j]
      {
        if j > 0 {
          assert bins[j] == Pack(rest)[j - 1];
        }
      }
    }
  }

  /** A filter that occurs once and lands in the first bin is in none of the later ones. */
  lemma NotInLaterBins(group: seq<MeshFilter>, x: MeshFilter)
    requires group != [] && multiset(group)[x] <= 1
    requires x in NextBin(group).0
    ensures forall j :: 1 <= j < |Pack(group)| ==> x !in Pack(group)[j]
  {
    var (b, rest) := NextBin(group);
    var bins := Pack(group);
    assert bins[1..] == Pack(rest);
    NextBinPermutation(group);
    assert multiset(b)[x] >= 1;
    assert multiset(rest)[x] == 0;
    PackOrder(rest);
    forall j | 1 <= j < |bins|
      ensures x !in bins[j]
    {
      assert bins[j] == Pack(rest)[j - 1];
      SubsequenceMultiset(bins[j], rest);
      assert multiset(bins[j])[x] == 0;
    }
  }

  /**
   * Vertex counts 40000, 30000, 4000 give the bins [40000, 4000] and [30000]:
   * 30000 is skipped by the first bin, and 4000 is then still offered to it.
   */
  lemma PackExample(a: MeshFilter, b: MeshFilter, c: MeshFilter)
    requires a.vertexCount == 40000 && b.vertexCount == 30000 && c.vertexCount == 4000
    ensures Pack([a, b, c]) == [[a, c], [b]]
  {
    VertexSumSnoc([], a);
    VertexSumSnoc([], b);
    VertexSumSnoc([a], c);
    assert [] + [a] == [a] && [] + [b] == [b] && [a] + [c] == [a, c];
    assert [c][1..] == [];
    assert [a, b, c][1..] == [b, c];
    assert [b, c][1..] == [c];
    assert VertexSum([a]) == 40000;
    assert Fill([a], [c]) == ([a, c], []);
    assert [b] + [] == [b];
    assert Fill([a], [b, c]) == ([a, c], [b]);
    assert Fill([b], []) == ([b], []);
  }
}
