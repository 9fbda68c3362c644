/** kmalloc and kmalloc_align as a whole: expansion, best fit, alignment, and the case that panics. */
module HeapMalloc {
  import opened Wrappers
  import opened HeapSpec
  import opened HeapInv
  import opened HeapOps

  // ---------------------------------------------------------------- live blocks

  ghost function LiveSet(bs: seq<Block>): set<Block> {
    set b | b in bs && !b.hole
  }

  /** The caller's view of a successful request: one new live block, nothing else changed. */
  ghost predicate Served(h: Heap, n: Heap, ptr: nat, size: nat) {
    exists b: Block :: NewBlock(h, n, ptr, size, b)
  }

  ghost predicate NewBlock(h: Heap, n: Heap, ptr: nat, size: nat, b: Block) {
    && !b.hole && b.Payload() == ptr && size <= b.size <= size + META
    && b !in LiveSet(h.blocks) && LiveSet(n.blocks) == LiveSet(h.blocks) + {b}
  }

  lemma SplitLive(l: seq<Block>, b: Block, r: seq<Block>, pos: nat, size: nat)
    requires b.Payload() <= pos && pos + size <= b.Payload() + b.size
    ensures LiveSet(l + Split(b, pos, size) + r) == LiveSet(l) + {Middle(b, pos, size)} + LiveSet(r)
  {
  }

  lemma HoleLive(l: seq<Block>, b: Block, r: seq<Block>)
    requires b.hole
    ensures LiveSet(l + [b] + r) == LiveSet(l) + LiveSet(r)
  {
  }

  /** The new block lies inside the hole it was cut from, so it is not one of the old blocks. */
  lemma MiddleIsNew(h: Heap, k: nat, pos: nat, size: nat)
    requires WF(h) && k < |h.blocks| && h.blocks[k].hole
    requires h.blocks[k].Payload() <= pos && pos + size <= h.blocks[k].Payload() + h.blocks[k].size
    ensures Middle(h.blocks[k], pos, size) !in LiveSet(h.blocks)
  {
    var m := Middle(h.blocks[k], pos, size);
    if j :| 0 <= j < |h.blocks| && h.blocks[j] == m && !h.blocks[j].hole {
      if j < k {
        AddrOrder(h.blocks, h.start, h.end, j, k);
      } else if k < j {
        AddrOrder(h.blocks, h.start, h.end, k, j);
      }
    }
  }

  lemma CarvedServes(h: Heap, n: Heap, pos: nat, size: nat, k: nat)
    requires WF(h) && Carved(h, n, pos, size, k)
    ensures Served(h, n, pos, size)
  {
    var b := h.blocks[k];
    var l, r := h.blocks[..k], h.blocks[k + 1..];
    assert h.blocks == l + [b] + r;
    SplitLive(l, b, r, pos, size);
    HoleLive(l, b, r);
    MiddleIsNew(h, k, pos, size);
    assert NewBlock(h, n, pos, size, Middle(b, pos, size));
  }

  // ---------------------------------------------------------------- the last block is in use

  /** The block that expansion appends after an allocated tail. */
  function Stray(h: Heap, ext: nat): Block
    requires ext >= META
  {
    Block(h.end, ext - META, false)
  }

  lemma AppendTiled(a: seq<Block>, b: seq<Block>, start: nat, mid: nat, end: nat)
    requires Tiled(a, start, mid) && Tiled(b, mid, end)
    ensures Tiled(a + b, start, end)
  {
    var r := a + b;
    forall i | 0 <= i < |r| - 1 ensures r[i].End() == r[i + 1].addr {
      if i + 1 < |a| {
        assert r[i] == a[i] && r[i + 1] == a[i + 1];
      } else if i + 1 == |a| {
        assert r[i] == a[|a| - 1] && r[i + 1] == b[0];
      } else {
        assert r[i] == b[i - |a|] && r[i + 1] == b[i + 1 - |a|];
      }
    }
  }

  lemma AppendNoTwoHoles(a: seq<Block>, b: seq<Block>)
    requires NoTwoHoles(a) && NoTwoHoles(b) && a != [] && !a[|a| - 1].hole
    ensures NoTwoHoles(a + b)
  {
    var r := a + b;
    forall i | 0 <= i < |r| - 1 ensures !(r[i].hole && r[i + 1].hole) {
      if i + 1 < |a| {
        assert r[i] == a[i] && r[i + 1] == a[i + 1];
      } else if i + 1 == |a| {
        assert r[i] == a[|a| - 1];
      } else {
        assert r[i] == b[i - |a|] && r[i + 1] == b[i + 1 - |a|];
      }
    }
  }

  /** The state that results when the appended block serves the request at once. */
  ghost predicate Appended(h: Heap, n: Heap, b: Block, pos: nat, size: nat)
    requires b.Payload() <= pos && pos + size <= b.Payload() + b.size
  {
    && n.start == h.start && n.end == b.End() && n.max == h.max
    && n.blocks == h.blocks + Split(b, pos, size)
    && Sorted(n.index) && multiset(n.index) == multiset(h.index) + multiset(Front(b, pos) + Rest(b, pos, size))
  }

  lemma AppendedKeeps(h: Heap, n: Heap, b: Block, pos: nat, size: nat)
    requires WF(h) && !h.blocks[|h.blocks| - 1].hole && b.addr == h.end && size > 0
    requires b.Payload() <= pos && pos + size <= b.Payload() + b.size
    requires pos == b.Payload() || pos - b.Payload() > META
    requires Appended(h, n, b, pos, size) && n.end % PAGE == 0 && n.end <= n.max
    ensures WF(n) && Served(h, n, pos, size)
  {
    hide Served;
    var mid := Split(b, pos, size);
    assert Tiled(n.blocks, n.start, n.end) && NoTwoHoles(n.blocks) && NonEmpty(n.blocks) by {
      SplitFills(b, pos, size);
      AppendTiled(h.blocks, mid, h.start, h.end, b.End());
      AppendNoTwoHoles(h.blocks, mid);
    }
    assert multiset(n.index) == multiset(Holes(n.blocks)) by {
      HolesConcat(h.blocks, mid);
      SplitHoles(b, pos, size);
    }
    AppendedServes(h, n, b, pos, size);
  }

  lemma AppendedServes(h: Heap, n: Heap, b: Block, pos: nat, size: nat)
    requires WF(h) && b.addr == h.end
    requires b.Payload() <= pos && pos + size <= b.Payload() + b.size
    requires n.blocks == h.blocks + Split(b, pos, size)
    ensures Served(h, n, pos, size)
  {
    var m := Middle(b, pos, size);
    assert n.blocks == h.blocks + Split(b, pos, size) + [];
    SplitLive(h.blocks, b, [], pos, size);
    if j :| 0 <= j < |h.blocks| && h.blocks[j] == m {
      if j < |h.blocks| - 1 {
        AddrOrder(h.blocks, h.start, h.end, j, |h.blocks| - 1);
      }
    }
    assert NewBlock(h, n, pos, size, m);
  }

  lemma InsertMembers(ix: seq<Block>, b: Block)
    requires |ix| < CAP
    ensures b in Insert(ix, b)
    ensures forall x :: x in Insert(ix, b) ==> x in ix || x == b
  {
    var p := InsertPos(ix, b.size, 0);
    assert Insert(ix, b)[p] == b;
  }

  /** When nothing in the index fits, the appended block is the one that is found. */
  lemma FindsStray(ix: seq<Block>, b: Block, size: nat, align: bool) returns (i: nat, pos: nat)
    requires |ix| < CAP && FindHole(ix, size, align, 0).None? && Fit(b, size, align).Some?
    ensures i < |Insert(ix, b)| && Insert(ix, b)[i] == b && Fit(b, size, align) == Some(pos)
    ensures FindHole(Insert(ix, b), size, align, 0) == Some((i, pos))
  {
    InsertMembers(ix, b);
    var r := FindHole(Insert(ix, b), size, align, 0);
    var j :| 0 <= j < |Insert(ix, b)| && Insert(ix, b)[j] == b;
    assert r.Some?;
    i, pos := r.value.0, r.value.1;
    assert Insert(ix, b)[i] in ix || Insert(ix, b)[i] == b;
  }

  lemma StrayPosition(h: Heap, b: Block)
    requires WF(h) && b.addr == h.end
    ensures AddrPos(h.blocks + [b], b.addr, 0) == |h.blocks|
  {
    var bs := h.blocks + [b];
    AppendTiled(h.blocks, [b], h.start, h.end, b.End());
    AddrFinds(bs, h.start, b.End(), |h.blocks|);
  }

  lemma StrayIndex(ix: seq<Block>, b: Block, i: nat, bs: seq<Block>)
    requires Sorted(ix) && |ix| < CAP && i < |Insert(ix, b)| && Insert(ix, b)[i] == b && |bs| <= 2 && |ix| + |bs| <= CAP
    ensures var r := InsertAll(RemoveAt(Insert(ix, b), i), bs);
            Sorted(r) && multiset(r) == multiset(ix) + multiset(bs)
  {
    var x := Insert(ix, b);
    InsertKeeps(ix, b);
    RemoveAtKeeps(x, i);
    InsertAllKeeps(RemoveAt(x, i), bs);
  }

  lemma StrayTaken(h: Heap, size: nat, align: bool) returns (i: nat, pos: nat)
    requires WF(h) && !h.blocks[|h.blocks| - 1].hole && |h.index| < CAP && size > 0
    requires FindHole(h.index, size, align, 0).None?
    requires h.end + AlignUp(size + META) <= h.max && Fit(Stray(h, AlignUp(size + META)), size, align).Some?
    ensures var b := Stray(h, AlignUp(size + META));
            var e := Expand(h, AlignUp(size + META));
            && e == h.(end := h.end + AlignUp(size + META), blocks := h.blocks + [b], index := Insert(h.index, b))
            && i < |e.index| && e.index[i] == b
            && b.Payload() <= pos && pos + size <= b.Payload() + b.size && (pos == b.Payload() || pos - b.Payload() > META)
            && (align ==> pos % PAGE == 0)
            && Alloc(h, size, align) == Got(PlaceAt(e, i, |h.blocks|, pos, size), pos)
  {
    hide Insert, Fit, FindHole, PlaceAt, AlignUp;
    var ext := AlignUp(size + META);
    var b := Stray(h, ext);
    i, pos := FindsStray(h.index, b, size, align);
    FitBounds(b, size, align, pos);
    StrayPosition(h, b);
    var e := h.(end := h.end + ext, blocks := h.blocks + [b], index := Insert(h.index, b));
    assert Expand(h, ext) == e;
    assert Take(e, i, pos, size) == Got(PlaceAt(e, i, |h.blocks|, pos, size), pos);
    assert Alloc(h, size, align) == Alloc(e, size, align);
  }

  lemma PlaceInStray(h: Heap, e: Heap, b: Block, i: nat, pos: nat, size: nat)
    requires Sorted(h.index) && |h.index| + 2 <= CAP && b.addr == h.end
    requires e == h.(end := b.End(), blocks := h.blocks + [b], index := Insert(h.index, b))
    requires i < |e.index| && e.index[i] == b && b.Payload() <= pos && pos + size <= b.Payload() + b.size
    ensures Appended(h, PlaceAt(e, i, |h.blocks|, pos, size), b, pos, size)
  {
    var k := |h.blocks|;
    assert e.blocks[..k] == h.blocks && e.blocks[k + 1..] == [] && e.blocks[k] == b;
    StrayIndex(h.index, b, i, Front(b, pos) + Rest(b, pos, size));
  }

  lemma StrayResult(h: Heap, size: nat, align: bool) returns (n: Heap, pos: nat)
    requires WF(h) && !h.blocks[|h.blocks| - 1].hole && |h.index| + 2 <= CAP && size > 0
    requires FindHole(h.index, size, align, 0).None?
    requires h.end + AlignUp(size + META) <= h.max && Fit(Stray(h, AlignUp(size + META)), size, align).Some?
    ensures var b := Stray(h, AlignUp(size + META));
            && b.Payload() <= pos && pos + size <= b.Payload() + b.size && (pos == b.Payload() || pos - b.Payload() > META)
            && (align ==> pos % PAGE == 0)
            && Alloc(h, size, align) == Got(n, pos) && Appended(h, n, b, pos, size)
  {
    var i;
    i, pos := StrayTaken(h, size, align);
    n := PlaceAt(Expand(h, AlignUp(size + META)), i, |h.blocks|, pos, size);
    PlaceInStray(h, Expand(h, AlignUp(size + META)), Stray(h, AlignUp(size + META)), i, pos, size);
  }

  lemma StrayFacts(h: Heap, size: nat)
    requires WF(h)
    ensures var b := Stray(h, AlignUp(size + META));
      b.addr == h.end && b.End() == h.end + AlignUp(size + META) && b.End() % PAGE == 0
  {
    SumOfPages(h.end, AlignUp(size + META));
  }

  lemma AppendedNames(h: Heap, n: Heap, b: Block, pos: nat, size: nat)
    requires b.Payload() <= pos && pos + size <= b.Payload() + b.size && Appended(h, n, b, pos, size)
    ensures n.end == b.End() && n.max == h.max
  {
  }

  /** The NOT_HOLE block that expansion puts into the index is consumed by the request that caused it. */
  lemma TakeStray(h: Heap, size: nat, align: bool) returns (n: Heap, pos: nat)
    requires WF(h) && !h.blocks[|h.blocks| - 1].hole && |h.index| + 2 <= CAP && size > 0
    requires FindHole(h.index, size, align, 0).None?
    requires h.end + AlignUp(size + META) <= h.max && Fit(Stray(h, AlignUp(size + META)), size, align).Some?
    ensures Alloc(h, size, align) == Got(n, pos) && (align ==> pos % PAGE == 0)
    ensures WF(n) && Served(h, n, pos, size) && n.end == h.end + AlignUp(size + META)
  {
    var b := Stray(h, AlignUp(size + META));
    hide Alloc, FindHole, Fit, Served, WF, AlignUp;
    StrayFacts(h, size);
    n, pos := StrayResult(h, size, align);
    AppendedNames(h, n, b, pos, size);
    hide Appended;
    AppendedKeeps(h, n, b, pos, size);
  }

  // ---------------------------------------------------------------- kmalloc

  /** An allocated tail: the appended block always fits an unaligned request. */
  lemma StrayFitsUnaligned(h: Heap, size: nat)
    ensures Fit(Stray(h, AlignUp(size + META)), size, false).Some?
  {
  }

  lemma TailHoleFits(h: Heap, size: nat)
    requires WF(h) && h.blocks[|h.blocks| - 1].hole && |h.index| <= CAP
    requires h.end + AlignUp(size + META) <= h.max
    ensures FindHole(Expand(h, AlignUp(size + META)).index, size, false, 0).Some?
  {
    var ext := AlignUp(size + META);
    ExpandKeeps(h, ext);
    ExpandBlocks(h, ext);
    var e := Expand(h, ext);
    var b := e.blocks[|e.blocks| - 1];
    InIndex(e, b);
    assert Fit(b, size, false).Some?;
  }

  lemma GrowLive(h: Heap, ext: nat)
    requires WF(h) && h.blocks[|h.blocks| - 1].hole && ext >= META
    ensures LiveSet(Expand(h, ext).blocks) == LiveSet(h.blocks)
  {
    ExpandBlocks(h, ext);
    var l, last := h.blocks[..|h.blocks| - 1], h.blocks[|h.blocks| - 1];
    assert h.blocks == l + [last];
  }

  /** A request served from an index entry: structure kept, one new live block. */
  lemma FoundServes(h: Heap, size: nat, align: bool)
    requires WF(h) && |h.index| < CAP && size > 0 && FindHole(h.index, size, align, 0).Some?
    ensures var r := Alloc(h, size, align);
            r.Got? && WF(r.heap) && Served(h, r.heap, r.ptr, size) && (align ==> r.ptr % PAGE == 0) && r.heap.end == h.end
  {
    var (i, pos) := FindHole(h.index, size, align, 0).value;
    var k := TakeKeeps(h, size, align, i, pos);
    CarvedServes(h, Take(h, i, pos, size).heap, pos, size, k);
  }

  lemma ServedAfterGrowth(h: Heap, e: Heap, n: Heap, ptr: nat, size: nat)
    requires LiveSet(e.blocks) == LiveSet(h.blocks) && Served(e, n, ptr, size)
    ensures Served(h, n, ptr, size)
  {
    var b :| NewBlock(e, n, ptr, size, b);
    assert NewBlock(h, n, ptr, size, b);
  }

  // ---------------------------------------------------------------- what fits

  /** A request of `size` bytes can be served at pos inside block b; a front part that is cut off must be a block. */
  predicate FitsAt(b: Block, size: nat, align: bool, pos: nat) {
    && b.Payload() <= pos && pos + size <= b.Payload() + b.size
    && if align then pos % PAGE == 0 && (pos == b.Payload() || pos - b.Payload() > META) else pos == b.Payload()
  }

  lemma NextMultiple(p: nat, q: nat)
    requires p % PAGE == 0 && q % PAGE == 0 && p < q
    ensures p + PAGE <= q
  {
  }

  lemma {:induction false} AlignedFirst(start: nat, end: nat, size: nat, p: nat, q: nat)
    requires start <= p <= q && p % PAGE == 0 && q % PAGE == 0 && q + size <= end && (q == start || q - start > META)
    ensures var r := AlignedPos(start, end, size, p); r.Some? && r.value <= q
    decreases end - p
  {
    if !(p == start || p - start > META) {
      NextMultiple(p, q);
      AlignedFirst(start, end, size, p + PAGE, q);
    }
  }

  /** The search inside a block misses no position and yields the lowest. */
  lemma FitIsLowest(b: Block, size: nat, align: bool)
    ensures var r := Fit(b, size, align);
      && (r.Some? ==> FitsAt(b, size, align, r.value))
      && forall q :: FitsAt(b, size, align, q) ==> r.Some? && r.value <= q
  {
    if Fit(b, size, align).Some? {
      FitBounds(b, size, align, Fit(b, size, align).value);
    }
    forall q: nat | FitsAt(b, size, align, q) ensures Fit(b, size, align).Some? && Fit(b, size, align).value <= q {
      if align {
        var start := b.Payload();
        assert AlignUp(start) <= q by {
          if q < AlignUp(start) { NextMultiple(q, AlignUp(start)); }
        }
        AlignedFirst(start, start + b.size, size, AlignUp(start), q);
      }
    }
  }

  /** Some hole can serve the request as it is. */
  ghost predicate Room(h: Heap, size: nat, align: bool) {
    exists b, pos :: b in h.blocks && b.hole && FitsAt(b, size, align, pos)
  }

  lemma FoundIffRoom(h: Heap, size: nat, align: bool)
    requires WF(h)
    ensures FindHole(h.index, size, align, 0).Some? <==> Room(h, size, align)
  {
    var r := FindHole(h.index, size, align, 0);
    if r.Some? {
      var b := h.index[r.value.0];
      InIndex(h, b);
      FitIsLowest(b, size, align);
    }
    if b, pos :| b in h.blocks && b.hole && FitsAt(b, size, align, pos) {
      InIndex(h, b);
      var j :| 0 <= j < |h.index| && h.index[j] == b;
      FitIsLowest(b, size, align);
      assert Fit(h.index[j], size, align).Some?;
    }
  }

  /** ptr is the lowest fitting place of a smallest fitting hole. */
  ghost predicate PlacedBest(h: Heap, size: nat, align: bool, ptr: nat) {
    exists b :: b in h.blocks && b.hole && FitsAt(b, size, align, ptr)
                && forall c, q :: c in h.blocks && c.hole && FitsAt(c, size, align, q) ==> b.size <= c.size && (c == b ==> ptr <= q)
  }

  /** Best fit: whenever a hole has room the heap is not expanded, and the request goes to the lowest fitting place of a smallest fitting hole. */
  lemma BestFit(h: Heap, size: nat, align: bool)
    requires WF(h) && |h.index| < CAP && size > 0 && Room(h, size, align)
    ensures var r := Alloc(h, size, align);
      r.Got? && r.heap.end == h.end && PlacedBest(h, size, align, r.ptr)
  {
    FoundIffRoom(h, size, align);
    FoundServes(h, size, align);
    var (i, pos) := FindHole(h.index, size, align, 0).value;
    var b := h.index[i];
    InIndex(h, b);
    FitIsLowest(b, size, align);
    forall c, q | c in h.blocks && c.hole && FitsAt(c, size, align, q) ensures b.size <= c.size && (c == b ==> pos <= q) {
      InIndex(h, c);
      var j :| 0 <= j < |h.index| && h.index[j] == c;
      FitIsLowest(c, size, align);
      assert Fit(h.index[j], size, align).Some?;
    }
  }

  // ---------------------------------------------------------------- kmalloc

  /** kmalloc: structure kept and one new live block of the right size, with at most one expansion, or the max-size Assert. */
  lemma Kmalloc(h: Heap, size: nat)
    requires WF(h) && |h.index| + 2 <= CAP && size > 0
    ensures var r := Alloc(h, size, false);
            if !Room(h, size, false) && h.end + AlignUp(size + META) > h.max then r == OutOfHeap
            else && r.Got? && WF(r.heap) && Served(h, r.heap, r.ptr, size)
                 && r.heap.end == if Room(h, size, false) then h.end else h.end + AlignUp(size + META)
  {
    FoundIffRoom(h, size, false);
    if FindHole(h.index, size, false, 0).Some? {
      FoundServes(h, size, false);
    } else if h.end + AlignUp(size + META) <= h.max {
      if h.blocks[|h.blocks| - 1].hole {
        var ext := AlignUp(size + META);
        var e := Expand(h, ext);
        ExpandKeeps(h, ext);
        TailHoleFits(h, size);
        FoundServes(e, size, false);
        GrowLive(h, ext);
        ServedAfterGrowth(h, e, Alloc(e, size, false).heap, Alloc(e, size, false).ptr, size);
      } else {
        StrayFitsUnaligned(h, size);
        var n, pos := TakeStray(h, size, false);
      }
    }
  }

  // ---------------------------------------------------------------- kmalloc_align

  /** From any payload start before a page boundary, two expansions leave room for an aligned request. */
  lemma AlignedFits(b: Block, old_: nat, size: nat)
    requires b.size > 0 && old_ % PAGE == 0 && b.Payload() < old_
    requires b.Payload() + b.size == old_ - FOOTER + 2 * AlignUp(size + META)
    ensures Fit(b, size, true).Some?
  {
    var start := b.Payload();
    var p := AlignUp(start);
    assert p <= old_ by {
      PageBelow(start, old_);
    }
    assert AlignUp(size + META) >= PAGE by {
      PageBelow(0, AlignUp(size + META));
    }
    if p != start && p - start <= META {
      assert AlignedPos(start, start + b.size, size, p) == AlignedPos(start, start + b.size, size, p + PAGE);
    }
  }

  lemma PageBelow(n: nat, page: nat)
    requires page % PAGE == 0 && n < page
    ensures AlignUp(n) <= page && PAGE <= page
  {
  }

  /** After an allocated tail, the appended block holds an aligned request exactly for these sizes. */
  lemma StrayFitsAligned(h: Heap, size: nat)
    requires h.end % PAGE == 0
    ensures Fit(Stray(h, AlignUp(size + META)), size, true).Some? <==> AlignUp(size + META) >= size + PAGE + FOOTER
  {
    var b := Stray(h, AlignUp(size + META));
    assert AlignUp(b.Payload()) == h.end + PAGE;
  }

  lemma TwoExpansionsFit(h: Heap, size: nat)
    requires WF(h) && h.blocks[|h.blocks| - 1].hole && |h.index| <= CAP
    requires h.end + 2 * AlignUp(size + META) <= h.max
    ensures var ext := AlignUp(size + META);
            var e := Expand(h, ext);
            WF(e) && e.blocks[|e.blocks| - 1].hole && e.end == h.end + ext && |e.index| == |h.index|
            && WF(Expand(e, ext)) && |Expand(e, ext).index| == |h.index| && Expand(e, ext).end == h.end + 2 * ext
            && FindHole(Expand(e, ext).index, size, true, 0).Some?
  {
    var ext := AlignUp(size + META);
    ExpandKeeps(h, ext);
    ExpandBlocks(h, ext);
    var e := Expand(h, ext);
    ExpandKeeps(e, ext);
    ExpandBlocks(e, ext);
    var x := Expand(e, ext);
    var b := x.blocks[|x.blocks| - 1];
    InIndex(x, b);
    AlignedFits(b, h.end, size);
  }

  /** kmalloc_align on a free tail: at most two expansions. */
  lemma AlignOnFreeTail(h: Heap, size: nat)
    requires WF(h) && h.blocks[|h.blocks| - 1].hole && |h.index| + 2 <= CAP && size > 0
    requires h.end + 2 * AlignUp(size + META) <= h.max
    ensures var r := Alloc(h, size, true);
            && r.Got? && WF(r.heap) && Served(h, r.heap, r.ptr, size) && r.ptr % PAGE == 0
            && h.end <= r.heap.end <= h.end + 2 * AlignUp(size + META)
  {
    var ext := AlignUp(size + META);
    if FindHole(h.index, size, true, 0).Some? {
      FoundServes(h, size, true);
    } else {
      TwoExpansionsFit(h, size);
      var e := Expand(h, ext);
      GrowLive(h, ext);
      if FindHole(e.index, size, true, 0).Some? {
        FoundServes(e, size, true);
        ServedAfterGrowth(h, e, Alloc(e, size, true).heap, Alloc(e, size, true).ptr, size);
      } else {
        var x := Expand(e, ext);
        GrowLive(e, ext);
        FoundServes(x, size, true);
        assert Alloc(e, size, true) == Alloc(x, size, true);
        ServedAfterGrowth(h, x, Alloc(x, size, true).heap, Alloc(x, size, true).ptr, size);
      }
    }
  }

  /** After an allocated tail, every further expansion appends another block that is too small, up to the max-size Assert. */
  lemma {:induction false} AlignPanics(h: Heap, size: nat)
    requires h.blocks != [] && !h.blocks[|h.blocks| - 1].hole && h.end % PAGE == 0
    requires FindHole(h.index, size, true, 0).None? && AlignUp(size + META) < size + PAGE + FOOTER
    ensures Alloc(h, size, true) == OutOfHeap
    decreases if h.end <= h.max then h.max - h.end else 0
  {
    var ext := AlignUp(size + META);
    if h.end + ext <= h.max {
      var b := Stray(h, ext);
      var e := Expand(h, ext);
      assert e.blocks[|e.blocks| - 1] == b;
      assert FindHole(e.index, size, true, 0).None? by {
        StrayFitsAligned(h, size);
        NoFitAfterInsert(h.index, b, size, true);
      }
      SumOfPages(h.end, ext);
      AlignPanics(e, size);
    }
  }

  lemma NoFitAfterInsert(ix: seq<Block>, b: Block, size: nat, align: bool)
    requires FindHole(ix, size, align, 0).None? && Fit(b, size, align).None?
    ensures FindHole(Insert(ix, b), size, align, 0).None?
  {
    var y := Insert(ix, b);
    forall k | 0 <= k < |y| ensures Fit(y[k], size, align) == None {
      if |ix| < CAP {
        InsertMembers(ix, b);
      }
      assert y[k] in y;
    }
  }

  /** kmalloc_align after an allocated tail, when no hole fits: it succeeds exactly for these sizes. */
  lemma AlignOnUsedTail(h: Heap, size: nat)
    requires WF(h) && !h.blocks[|h.blocks| - 1].hole && |h.index| + 2 <= CAP && size > 0
    requires !Room(h, size, true)
    ensures var r := Alloc(h, size, true);
            && (r.Got? <==> AlignUp(size + META) >= size + PAGE + FOOTER && h.end + AlignUp(size + META) <= h.max)
            && (r.Got? || r == OutOfHeap)
            && (r.Got? ==> WF(r.heap) && Served(h, r.heap, r.ptr, size) && r.ptr % PAGE == 0)
  {
    FoundIffRoom(h, size, true);
    StrayFitsAligned(h, size);
    if AlignUp(size + META) < size + PAGE + FOOTER {
      AlignPanics(h, size);
    } else if h.end + AlignUp(size + META) <= h.max {
      var n, pos := TakeStray(h, size, true);
    }
  }

  ghost predicate UsedTail(h: Heap)
    requires h.blocks != []
  {
    !h.blocks[|h.blocks| - 1].hole
  }

  /** When kmalloc_align succeeds although no hole has room. */
  lemma AlignedWithoutRoom(h: Heap, size: nat)
    requires WF(h) && |h.index| + 2 <= CAP && size > 0
    ensures !Room(h, size, true) ==>
      if UsedTail(h) then Alloc(h, size, true).Got? <==> AlignUp(size + META) >= size + PAGE + FOOTER && h.end + AlignUp(size + META) <= h.max
      else h.end + 2 * AlignUp(size + META) <= h.max ==> Alloc(h, size, true).Got?
  {
    if !Room(h, size, true) {
      if UsedTail(h) {
        AlignOnUsedTail(h, size);
      } else if h.end + 2 * AlignUp(size + META) <= h.max {
        AlignOnFreeTail(h, size);
      }
    }
  }
}
