/** kfree: two-sided merging keeps the structure, and freeing everything leaves one hole. */
module HeapFree {
  import opened HeapSpec
  import opened HeapInv
  import opened HeapOps
  import opened HeapMalloc

  // ---------------------------------------------------------------- the blocks

  lemma MergedFills(bs: seq<Block>, start: nat, end: nat, k: nat)
    requires Tiled(bs, start, end) && NonEmpty(bs) && k < |bs|
    ensures var (lo, hi, b) := Merged(bs, k);
            Tiled([b], bs[lo].addr, bs[hi - 1].End()) && NonEmpty([b])
  {
  }

  lemma MergedAlone(bs: seq<Block>, k: nat)
    requires NoTwoHoles(bs) && k < |bs| && !bs[k].hole
    ensures var (lo, hi, b) := Merged(bs, k);
            && (lo > 0 ==> !bs[lo - 1].hole)
            && (hi < |bs| ==> !bs[hi].hole)
  {
    if k > 0 && bs[k - 1].hole {
      NeighboursOfHole(bs, k - 1);
    }
    if k + 1 < |bs| && bs[k + 1].hole {
      NeighboursOfHole(bs, k + 1);
    }
  }

  /** The blocks after a free are tiled, non-empty and without neighbouring holes. */
  lemma FreeBlocks(h: Heap, k: nat)
    requires WF(h) && k < |h.blocks| && !h.blocks[k].hole
    ensures var n := Free(h, k);
            Tiled(n.blocks, h.start, h.end) && NonEmpty(n.blocks) && NoTwoHoles(n.blocks)
  {
    var (lo, hi, b) := Merged(h.blocks, k);
    assert Free(h, k).blocks == h.blocks[..lo] + [b] + h.blocks[hi..];
    MergedFills(h.blocks, h.start, h.end, k);
    MergedAlone(h.blocks, k);
    SpliceTiled(h.blocks, h.start, h.end, lo, hi, [b]);
    SpliceNoTwoHoles(h.blocks, lo, hi, [b]);
    SpliceNonEmpty(h.blocks, lo, hi, [b]);
  }

  // ---------------------------------------------------------------- the index

  lemma {:induction false} NoHoles(bs: seq<Block>)
    requires forall i :: 0 <= i < |bs| ==> !bs[i].hole
    ensures Holes(bs) == []
  {
    if bs != [] {
      NoHoles(bs[1..]);
    }
  }

  /** The holes that a free of block k merges away. */
  ghost function Swallowed(bs: seq<Block>, k: nat): multiset<Block>
    requires k < |bs|
  {
    (if k > 0 && bs[k - 1].hole then multiset{bs[k - 1]} else multiset{})
    + (if k + 1 < |bs| && bs[k + 1].hole then multiset{bs[k + 1]} else multiset{})
  }

  lemma HolesOfAtMostOne(a: seq<Block>, c: bool, x: Block)
    requires a == if c then [x] else []
    requires c ==> x.hole
    ensures multiset(Holes(a)) == if c then multiset{x} else multiset{}
  {
    if c {
      OneHole(x);
    }
  }

  lemma SwallowedHoles(bs: seq<Block>, k: nat)
    requires k < |bs| && !bs[k].hole
    ensures var (lo, hi, _) := Merged(bs, k); multiset(Holes(bs[lo..hi])) == Swallowed(bs, k)
  {
    var (lo, hi, _) := Merged(bs, k);
    var a, c := bs[lo..k], bs[k + 1..hi];
    var x, y := (if lo < k then bs[k - 1] else bs[k]), (if hi == k + 2 then bs[k + 1] else bs[k]);
    hide Holes;
    assert multiset(Holes(a)) == (if lo < k then multiset{x} else multiset{}) by {
      HolesOfAtMostOne(a, lo < k, x);
    }
    assert multiset(Holes(c)) == (if hi == k + 2 then multiset{y} else multiset{}) by {
      HolesOfAtMostOne(c, hi == k + 2, y);
    }
    Slices(bs, lo, k, hi);
    DropMiddle(a, bs[k], c);
  }

  lemma Slices(bs: seq<Block>, lo: nat, k: nat, hi: nat)
    requires lo <= k < hi <= |bs|
    ensures bs[lo..hi] == bs[lo..k] + [bs[k]] + bs[k + 1..hi]
  {
  }

  lemma DropMiddle(a: seq<Block>, b: Block, c: seq<Block>)
    requires !b.hole
    ensures multiset(Holes(a + [b] + c)) == multiset(Holes(a)) + multiset(Holes(c))
  {
    HolesOf3(a, [b], c);
    NoHoles([b]);
  }

  lemma EntryUnique(h: Heap, j: nat)
    requires WF(h) && j < |h.blocks| && h.blocks[j].hole
    ensures h.blocks[j] in h.index && forall x :: x in h.index && x.addr == h.blocks[j].addr ==> x == h.blocks[j]
  {
    InIndex(h, h.blocks[j]);
    forall x | x in h.index && x.addr == h.blocks[j].addr ensures x == h.blocks[j] {
      HoleUnique(h, j, x);
    }
  }

  /** The index after the removals of free, before its insertion. */
  function Pruned(h: Heap, k: nat): seq<Block>
    requires k < |h.blocks|
  {
    var (lo, hi, _) := Merged(h.blocks, k);
    var ix1 := if hi == k + 2 then RemoveAddr(h.index, h.blocks[k + 1].addr) else h.index;
    if lo < k then RemoveAddr(ix1, h.blocks[lo].addr) else ix1
  }

  lemma SubMembers(a: seq<Block>, b: seq<Block>, x: Block)
    requires multiset(a) <= multiset(b) && x in a
    ensures x in b
  {
    assert x in multiset(a);
    assert x in multiset(b);
  }

  lemma PruneNext(h: Heap, k: nat)
    requires WF(h) && k + 1 < |h.blocks| && h.blocks[k + 1].hole
    ensures var ix := RemoveAddr(h.index, h.blocks[k + 1].addr);
            Sorted(ix) && multiset(ix) == multiset(h.index) - multiset{h.blocks[k + 1]} && |ix| == |h.index| - 1
  {
    EntryUnique(h, k + 1);
    RemoveAddrKeeps(h.index, h.blocks[k + 1]);
  }

  lemma PrunePrev(h: Heap, k: nat, ix: seq<Block>)
    requires WF(h) && 0 < k < |h.blocks| && h.blocks[k - 1].hole && Sorted(ix)
    requires multiset(ix) <= multiset(h.index) && h.blocks[k - 1] in multiset(ix)
    ensures var r := RemoveAddr(ix, h.blocks[k - 1].addr);
            Sorted(r) && multiset(r) == multiset(ix) - multiset{h.blocks[k - 1]} && |r| == |ix| - 1
  {
    EntryUnique(h, k - 1);
    forall x | x in ix && x.addr == h.blocks[k - 1].addr ensures x == h.blocks[k - 1] {
      SubMembers(ix, h.index, x);
    }
    RemoveAddrKeeps(ix, h.blocks[k - 1]);
  }

  lemma PrunedNextOnly(h: Heap, k: nat, next: bool, ix: seq<Block>)
    requires WF(h) && k < |h.blocks| && next == (k + 1 < |h.blocks| && h.blocks[k + 1].hole)
    requires ix == if next then RemoveAddr(h.index, h.blocks[k + 1].addr) else h.index
    ensures Sorted(ix) && multiset(ix) == multiset(h.index) - (if next then multiset{h.blocks[k + 1]} else multiset{})
    ensures |ix| == |h.index| - if next then 1 else 0
    ensures k > 0 && h.blocks[k - 1].hole ==> h.blocks[k - 1] in multiset(ix)
  {
    if next {
      PruneNext(h, k);
    }
    if k > 0 && h.blocks[k - 1].hole {
      EntryUnique(h, k - 1);
      assert h.blocks[k - 1] in multiset(h.index);
      if next {
        AddrOrder(h.blocks, h.start, h.end, k - 1, k + 1);
      }
    }
  }

  lemma MinusTwice<T>(m: multiset<T>, a: multiset<T>, b: multiset<T>)
    ensures m - a - b == m - (b + a)
  {
  }

  lemma PrunedPrevToo(h: Heap, k: nat, prev: bool, ix: seq<Block>, r: seq<Block>)
    requires WF(h) && k < |h.blocks| && prev == (k > 0 && h.blocks[k - 1].hole)
    requires Sorted(ix) && multiset(ix) <= multiset(h.index) && (prev ==> h.blocks[k - 1] in multiset(ix))
    requires r == if prev then RemoveAddr(ix, h.blocks[k - 1].addr) else ix
    ensures Sorted(r) && multiset(r) == multiset(ix) - (if prev then multiset{h.blocks[k - 1]} else multiset{})
    ensures |r| == |ix| - if prev then 1 else 0
  {
    if prev {
      PrunePrev(h, k, ix);
    }
  }

  /** Both removals are exact: the neighbours go and nothing else. */
  lemma PrunedKeeps(h: Heap, k: nat)
    requires WF(h) && k < |h.blocks| && !h.blocks[k].hole
    ensures Sorted(Pruned(h, k)) && multiset(Pruned(h, k)) == multiset(h.index) - Swallowed(h.blocks, k)
    ensures |Pruned(h, k)| == |h.index| - |Swallowed(h.blocks, k)|
  {
    var next := k + 1 < |h.blocks| && h.blocks[k + 1].hole;
    var prev := k > 0 && h.blocks[k - 1].hole;
    var ix := if next then RemoveAddr(h.index, h.blocks[k + 1].addr) else h.index;
    var r := if prev then RemoveAddr(ix, h.blocks[k - 1].addr) else ix;
    assert Pruned(h, k) == r;
    PrunedNextOnly(h, k, next, ix);
    PrunedPrevToo(h, k, prev, ix, r);
    MinusTwice(multiset(h.index), if next then multiset{h.blocks[k + 1]} else multiset{},
               if prev then multiset{h.blocks[k - 1]} else multiset{});
  }

  lemma FreeIndex(h: Heap, k: nat)
    requires WF(h) && k < |h.blocks| && !h.blocks[k].hole
    requires |h.index| < CAP || (|h.index| == CAP && Swallowed(h.blocks, k) != multiset{})
    ensures var n := Free(h, k);
            Sorted(n.index) && multiset(n.index) == multiset(Holes(n.blocks))
  {
    var (lo, hi, b) := Merged(h.blocks, k);
    var ix := Pruned(h, k);
    var n := Free(h, k);
    assert n.index == Insert(ix, b) && n.blocks == h.blocks[..lo] + [b] + h.blocks[hi..];
    assert Sorted(Insert(ix, b)) && multiset(Insert(ix, b)) == multiset(h.index) - Swallowed(h.blocks, k) + multiset{b} by {
      PrunedKeeps(h, k);
      InsertKeeps(ix, b);
    }
    assert multiset(Holes(n.blocks)) == multiset(Holes(h.blocks)) - Swallowed(h.blocks, k) + multiset{b} by {
      SpliceHoles(h.blocks, lo, hi, [b]);
      SwallowedHoles(h.blocks, k);
      OneHole(b);
    }
  }

  // ---------------------------------------------------------------- kfree

  lemma StaysLive(bs: seq<Block>, k: nat, lo: nat, hi: nat, b: Block, x: Block)
    requires k < |bs| && Merged(bs, k) == (lo, hi, b) && x in LiveSet(bs) && x != bs[k]
    ensures x in bs[..lo] + [b] + bs[hi..]
  {
    var j :| 0 <= j < |bs| && bs[j] == x;
    var r := bs[..lo] + [b] + bs[hi..];
    if j < lo {
      assert r[j] == x;
    } else {
      assert r[j - hi + lo + 1] == x;
    }
  }

  lemma WasLive(bs: seq<Block>, start: nat, end: nat, k: nat, lo: nat, hi: nat, b: Block, x: Block)
    requires Tiled(bs, start, end) && k < |bs| && Merged(bs, k) == (lo, hi, b)
    requires x in bs[..lo] + [b] + bs[hi..] && !x.hole
    ensures x in bs && x != bs[k]
  {
    var r := bs[..lo] + [b] + bs[hi..];
    var j :| 0 <= j < |r| && r[j] == x;
    var i := if j < lo then j else j + hi - lo - 1;
    assert bs[i] == x && i != k;
    if x == bs[k] {
      AddrUnique(bs, start, end, i, k);
    }
  }

  lemma FreeLive(h: Heap, k: nat)
    requires WF(h) && k < |h.blocks| && !h.blocks[k].hole
    ensures LiveSet(Free(h, k).blocks) == LiveSet(h.blocks) - {h.blocks[k]}
  {
    var (lo, hi, b) := Merged(h.blocks, k);
    var r := h.blocks[..lo] + [b] + h.blocks[hi..];
    assert Free(h, k).blocks == r;
    forall x | x in LiveSet(h.blocks) && x != h.blocks[k] ensures x in LiveSet(r) {
      StaysLive(h.blocks, k, lo, hi, b, x);
    }
    forall x | x in LiveSet(r) ensures x in LiveSet(h.blocks) && x != h.blocks[k] {
      WasLive(h.blocks, h.start, h.end, k, lo, hi, b, x);
    }
  }

  /** kfree of a live block keeps the structure, and that block alone stops being live. */
  lemma Kfree(h: Heap, k: nat)
    requires WF(h) && |h.index| < CAP && k < |h.blocks| && !h.blocks[k].hole
    ensures WF(Free(h, k)) && LiveSet(Free(h, k).blocks) == LiveSet(h.blocks) - {h.blocks[k]}
  {
    FreeBlocks(h, k);
    FreeIndex(h, k);
    FreeLive(h, k);
  }

  /** The ignored result of ordered_array_insert: a free loses its hole exactly when the index is full and nothing merges. */
  lemma KfreeKeepsIff(h: Heap, k: nat)
    requires WF(h) && |h.index| <= CAP && k < |h.blocks| && !h.blocks[k].hole
    ensures WF(Free(h, k)) <==> |h.index| < CAP || Swallowed(h.blocks, k) != multiset{}
  {
    if |h.index| < CAP || Swallowed(h.blocks, k) != multiset{} {
      FreeBlocks(h, k);
      FreeIndex(h, k);
    } else {
      var n := Free(h, k);
      var (lo, hi, b) := Merged(h.blocks, k);
      assert lo == k && hi == k + 1;
      assert n.index == h.index && n.blocks == h.blocks[..k] + [b] + h.blocks[k + 1..];
      SpliceHoles(h.blocks, k, k + 1, [b]);
      SwallowedHoles(h.blocks, k);
      OneHole(b);
      assert |multiset(Holes(n.blocks))| == |multiset(Holes(h.blocks))| + 1;
    }
  }

  // ---------------------------------------------------------------- consequences

  /** Live payloads are disjoint and inside the heap. */
  lemma LiveDisjoint(h: Heap, b: Block, c: Block)
    requires WF(h) && b in LiveSet(h.blocks)
    ensures h.start <= b.addr && b.End() <= h.end
    ensures c in LiveSet(h.blocks) && b != c ==> b.End() <= c.addr || c.End() <= b.addr
  {
    var i :| 0 <= i < |h.blocks| && h.blocks[i] == b;
    if i > 0 {
      AddrOrder(h.blocks, h.start, h.end, 0, i);
    }
    if i < |h.blocks| - 1 {
      AddrOrder(h.blocks, h.start, h.end, i, |h.blocks| - 1);
    }
    if c in LiveSet(h.blocks) && b != c {
      var j :| 0 <= j < |h.blocks| && h.blocks[j] == c;
      if i < j {
        AddrOrder(h.blocks, h.start, h.end, i, j);
      } else {
        AddrOrder(h.blocks, h.start, h.end, j, i);
      }
    }
  }

  /** Coalescing is complete: with nothing live the heap is one hole over start..end and the index names it. */
  lemma AllFreed(h: Heap)
    requires WF(h) && LiveSet(h.blocks) == {}
    ensures h.start + META < h.end
    ensures h.blocks == [Block(h.start, h.end - h.start - META, true)] && h.index == h.blocks
  {
    assert |h.blocks| > 1 ==> !(h.blocks[0].hole && h.blocks[0 + 1].hole);
    forall i | 0 <= i < |h.blocks| ensures h.blocks[i].hole {
      assert h.blocks[i] !in LiveSet(h.blocks);
    }
    assert h.blocks == [h.blocks[0]];
    OneHole(h.blocks[0]);
    assert |h.index| == |multiset(h.index)| == 1;
    assert h.index[0] in multiset(h.index);
  }
}
