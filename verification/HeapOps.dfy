/** Every kmalloc and kfree keeps the heap's structure; what the caller gets. */
module HeapOps {
  import opened Wrappers
  import opened HeapSpec
  import opened HeapInv

  // ---------------------------------------------------------------- splitting a hole

  /** The pieces of a split block fill it exactly, are never empty and never put two holes side by side. */
  lemma SplitFills(b: Block, pos: nat, size: nat)
    requires size > 0 && b.Payload() <= pos && pos + size <= b.Payload() + b.size
    requires pos == b.Payload() || pos - b.Payload() > META
    ensures var mid := Split(b, pos, size);
            Tiled(mid, b.addr, b.End()) && NonEmpty(mid) && NoTwoHoles(mid)
  {
  }

  lemma SplitHoles(b: Block, pos: nat, size: nat)
    requires b.Payload() <= pos && pos + size <= b.Payload() + b.size
    ensures Holes(Split(b, pos, size)) == Front(b, pos) + Rest(b, pos, size)
  {
    HolesOf3(Front(b, pos), [Middle(b, pos, size)], Rest(b, pos, size));
    assert Holes(Front(b, pos)) == Front(b, pos);
    assert Holes(Rest(b, pos, size)) == Rest(b, pos, size);
    assert Holes([Middle(b, pos, size)]) == [];
  }

  lemma NeighboursOfHole(bs: seq<Block>, k: nat)
    requires NoTwoHoles(bs) && k < |bs| && bs[k].hole
    ensures k > 0 ==> !bs[k - 1].hole
    ensures k + 1 < |bs| ==> !bs[k + 1].hole
  {
    if k > 0 {
      var j := k - 1;
      assert bs[j + 1] == bs[k];
    }
  }

  /** Placing a request in hole k keeps the heap well formed, while the index has room. */
  lemma PlaceKeeps(h: Heap, i: nat, k: nat, pos: nat, size: nat)
    requires WF(h) && i < |h.index| < CAP && k < |h.blocks| && h.index[i] == h.blocks[k] && h.blocks[k].hole
    requires size > 0 && h.blocks[k].Payload() <= pos && pos + size <= h.blocks[k].Payload() + h.blocks[k].size
    requires pos == h.blocks[k].Payload() || pos - h.blocks[k].Payload() > META
    ensures WF(PlaceAt(h, i, k, pos, size))
  {
    var b := h.blocks[k];
    var mid := Split(b, pos, size);
    SplitFills(b, pos, size);
    NeighboursOfHole(h.blocks, k);
    SpliceTiled(h.blocks, h.start, h.end, k, k + 1, mid);
    SpliceNoTwoHoles(h.blocks, k, k + 1, mid);
    SpliceNonEmpty(h.blocks, k, k + 1, mid);
    PlaceIndex(h, i, k, pos, size);
  }

  /** Index entry i replaced by new holes. */
  lemma ReplaceEntry(ix: seq<Block>, i: nat, bs: seq<Block>)
    requires Sorted(ix) && i < |ix| < CAP && |bs| <= 2
    ensures var r := InsertAll(RemoveAt(ix, i), bs);
            Sorted(r) && multiset(r) == multiset(ix) - multiset{ix[i]} + multiset(bs)
  {
    RemoveAtKeeps(ix, i);
    InsertAllKeeps(RemoveAt(ix, i), bs);
  }

  lemma PlaceIndex(h: Heap, i: nat, k: nat, pos: nat, size: nat)
    requires Sorted(h.index) && multiset(h.index) == multiset(Holes(h.blocks))
    requires i < |h.index| < CAP && k < |h.blocks| && h.index[i] == h.blocks[k] && h.blocks[k].hole
    requires h.blocks[k].Payload() <= pos && pos + size <= h.blocks[k].Payload() + h.blocks[k].size
    ensures var n := PlaceAt(h, i, k, pos, size);
            Sorted(n.index) && multiset(n.index) == multiset(Holes(n.blocks))
  {
    var b := h.blocks[k];
    SplitHoles(b, pos, size);
    assert h.blocks == h.blocks[..k] + [b] + h.blocks[k + 1..];
    SpliceOneHole(h.blocks[..k], b, h.blocks[k + 1..], Split(b, pos, size));
    ReplaceEntry(h.index, i, Front(b, pos) + Rest(b, pos, size));
  }

  // ---------------------------------------------------------------- expansion

  lemma TailHoleUnique(h: Heap)
    requires WF(h) && h.blocks[|h.blocks| - 1].hole
    ensures var last := h.blocks[|h.blocks| - 1];
            last in h.index && forall x :: x in h.index && x.addr == last.addr ==> x == last
  {
    var n := |h.blocks| - 1;
    InIndex(h, h.blocks[n]);
    forall x | x in h.index && x.addr == h.blocks[n].addr ensures x == h.blocks[n] {
      HoleUnique(h, n, x);
    }
  }

  lemma HoleUnique(h: Heap, k: nat, x: Block)
    requires WF(h) && k < |h.blocks| && x in h.index && x.addr == h.blocks[k].addr
    ensures x == h.blocks[k]
  {
    InIndex(h, x);
    var j :| 0 <= j < |h.blocks| && h.blocks[j] == x;
    AddrUnique(h.blocks, h.start, h.end, j, k);
  }

  /** A block resized while it is in the index: removed by address, inserted by its new size. */
  lemma ResizeEntry(ix: seq<Block>, b: Block, c: Block)
    requires Sorted(ix) && |ix| <= CAP && b in ix && forall x :: x in ix && x.addr == b.addr ==> x == b
    ensures var r := Insert(RemoveAddr(ix, b.addr), c);
            Sorted(r) && multiset(r) == multiset(ix) - multiset{b} + multiset{c} && |r| == |ix|
  {
    RemoveAddrKeeps(ix, b);
    InsertKeeps(RemoveAddr(ix, b.addr), c);
  }

  lemma ResizeTail(l: seq<Block>, b: Block, c: Block)
    requires b.hole && c.hole
    ensures multiset(Holes(l + [c])) == multiset(Holes(l + [b])) - multiset{b} + multiset{c}
  {
    HolesConcat(l, [c]);
    HolesConcat(l, [b]);
    OneHole(b);
    OneHole(c);
    assert multiset(Holes(l) + [b]) == multiset(Holes(l)) + multiset{b};
    assert multiset(Holes(l) + [c]) == multiset(Holes(l)) + multiset{c};
  }

  lemma ExpandIndex(h: Heap, ext: nat)
    requires WF(h) && h.blocks[|h.blocks| - 1].hole && |h.index| <= CAP && ext >= META
    ensures var n := Expand(h, ext);
            Sorted(n.index) && multiset(n.index) == multiset(Holes(n.blocks)) && |n.index| == |h.index|
  {
    var last := h.blocks[|h.blocks| - 1];
    var l := h.blocks[..|h.blocks| - 1];
    var b := Block(last.addr, last.size + ext, true);
    var r := Insert(RemoveAddr(h.index, last.addr), b);
    assert Sorted(r) && multiset(r) == multiset(Holes(l + [b])) && |r| == |h.index| by {
      TailHoleUnique(h);
      ResizeEntry(h.index, last, b);
      assert h.blocks == l + [last];
      ResizeTail(l, last, b);
    }
    assert Expand(h, ext).index == r;
    assert Expand(h, ext).blocks == l + [b];
  }

  lemma ExpandBlocks(h: Heap, ext: nat)
    requires WF(h) && h.blocks[|h.blocks| - 1].hole && ext >= META
    ensures var n := Expand(h, ext);
            && n.start == h.start && n.end == h.end + ext && n.max == h.max
            && n.blocks == h.blocks[..|h.blocks| - 1] + [Block(h.blocks[|h.blocks| - 1].addr, h.blocks[|h.blocks| - 1].size + ext, true)]
            && Tiled(n.blocks, n.start, n.end) && NonEmpty(n.blocks) && NoTwoHoles(n.blocks)
  {
    GrowTail(h.blocks, h.start, h.end, ext);
  }

  /** Growing a free tail keeps the heap well formed: the block is resized while it is in the index. */
  lemma ExpandKeeps(h: Heap, ext: nat)
    requires WF(h) && h.blocks[|h.blocks| - 1].hole && |h.index| <= CAP
    requires ext >= META && ext % PAGE == 0 && h.end + ext <= h.max
    ensures WF(Expand(h, ext)) && |Expand(h, ext).index| == |h.index|
  {
    hide Expand, Tiled, NonEmpty, NoTwoHoles, Sorted, Holes;
    ExpandIndex(h, ext);
    ExpandBlocks(h, ext);
    SumOfPages(h.end, ext);
  }

  lemma SumOfPages(a: nat, b: nat)
    requires a % PAGE == 0 && b % PAGE == 0
    ensures (a + b) % PAGE == 0
  {
  }

  lemma GrowTail(bs: seq<Block>, start: nat, end: nat, ext: nat)
    requires Tiled(bs, start, end) && NonEmpty(bs) && NoTwoHoles(bs) && bs[|bs| - 1].hole
    ensures var last := bs[|bs| - 1];
            var r := bs[..|bs| - 1] + [Block(last.addr, last.size + ext, true)];
            Tiled(r, start, end + ext) && NonEmpty(r) && NoTwoHoles(r)
  {
  }

  // ---------------------------------------------------------------- kmalloc

  /** The block of an index entry, found again in the tiling. */
  lemma EntryBlock(h: Heap, i: nat) returns (k: nat)
    requires WF(h) && i < |h.index|
    ensures k < |h.blocks| && h.blocks[k] == h.index[i] && h.blocks[k].hole && AddrPos(h.blocks, h.index[i].addr, 0) == k
  {
    InIndex(h, h.index[i]);
    k :| 0 <= k < |h.blocks| && h.blocks[k] == h.index[i];
    AddrFinds(h.blocks, h.start, h.end, k);
  }

  /** What a successful allocation of `size` bytes at `ptr` has done to the blocks of h. */
  ghost predicate Carved(h: Heap, n: Heap, ptr: nat, size: nat, k: nat) {
    && k < |h.blocks| && h.blocks[k].hole
    && h.blocks[k].Payload() <= ptr && ptr + size <= h.blocks[k].Payload() + h.blocks[k].size
    && n.blocks == h.blocks[..k] + Split(h.blocks[k], ptr, size) + h.blocks[k + 1..]
    && n.start == h.start && n.end == h.end && n.max == h.max
  }

  /** An allocation that finds a hole keeps the structure and carves the request out of that hole. */
  lemma TakeKeeps(h: Heap, size: nat, align: bool, i: nat, pos: nat) returns (k: nat)
    requires WF(h) && |h.index| < CAP && size > 0 && FindHole(h.index, size, align, 0) == Some((i, pos))
    ensures var r := Take(h, i, pos, size);
            r.Got? && r.ptr == pos && WF(r.heap) && Carved(h, r.heap, pos, size, k) && h.blocks[k] == h.index[i]
    ensures align ==> pos % PAGE == 0
  {
    k := EntryBlock(h, i);
    FitBounds(h.index[i], size, align, pos);
    PlaceKeeps(h, i, k, pos, size);
  }
}
