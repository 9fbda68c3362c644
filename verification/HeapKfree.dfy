/** free (src/mem/kheap.c:199-234) on memory: merge forward, then backward, then one insertion. */
module HeapKfree {
  import opened Bytes
  import opened HeapSpec
  import opened HeapInv
  import opened HeapOps
  import opened HeapFree
  import opened HeapCoherent
  import opened HeapCode
  import opened HeapAlloc
  import OA = OrderedArray

  ghost function NextHole(h: Heap, k: nat): bool
    requires k < |h.blocks|
  {
    k + 1 < |h.blocks| && h.blocks[k + 1].hole
  }

  ghost function PrevHole(h: Heap, k: nat): bool
    requires k < |h.blocks|
  {
    k > 0 && h.blocks[k - 1].hole
  }

  /** Block k merged with the hole behind it. */
  ghost function Forward(h: Heap, k: nat): Block
    requires k < |h.blocks|
  {
    Block(h.blocks[k].addr, if NextHole(h, k) then h.blocks[k].size + h.blocks[k + 1].size + META else h.blocks[k].size, true)
  }

  ghost function ForwardIndex(h: Heap, k: nat): seq<Block>
    requires k < |h.blocks|
  {
    if NextHole(h, k) then RemoveAddr(h.index, h.blocks[k + 1].addr) else h.index
  }

  lemma MergedIs(h: Heap, k: nat)
    requires k < |h.blocks|
    ensures var (lo, hi, b) := Merged(h.blocks, k);
            && lo == (if PrevHole(h, k) then k - 1 else k) && hi == (if NextHole(h, k) then k + 2 else k + 1)
            && b == (if PrevHole(h, k) then Block(h.blocks[k - 1].addr, h.blocks[k - 1].size + Forward(h, k).size + META, true)
                     else Forward(h, k))
            && Pruned(h, k) == (if PrevHole(h, k) then RemoveAddr(ForwardIndex(h, k), h.blocks[k - 1].addr) else ForwardIndex(h, k))
  {
  }

  /** What free reads where the next header would be. */
  lemma NextTags(m: seq<Byte>, items: seq<nat>, h: Heap, k: nat)
    requires Represents(m, items, h) && HolesIndexed(h) && k < |h.blocks|
    ensures Tagged(m, h.blocks[k]) && h.blocks[k].End() <= h.end < WORD_MOD && Addresses(items, h.index)
    ensures h.blocks[k].End() < h.end <==> k + 1 < |h.blocks|
    ensures k + 1 < |h.blocks| ==> h.blocks[k + 1].addr == h.blocks[k].End() && Tagged(m, h.blocks[k + 1]) && h.blocks[k + 1].End() <= h.end
    ensures NextHole(h, k) ==> AddrPos(h.index, h.blocks[k + 1].addr, 0) < |h.index|
    ensures Forward(h, k).End() <= h.end
  {
    InsideHeap(h, h.blocks[k]);
    if k + 1 < |h.blocks| {
      InsideHeap(h, h.blocks[k + 1]);
      if NextHole(h, k) {
        RemoveAddrDistinct(h.index, h.blocks[k + 1]);
      }
    }
  }

  /** header->is_hole = 1. */
  method MarkFree(mem: array<Byte>, header: nat, ghost b: Block)
    requires Tagged(mem[..], b) && header == b.addr
    modifies mem
    ensures Tagged(mem[..], b.(hole := true)) && SameOutside(old(mem[..]), mem[..], header, header + HEADER)
  {
    ghost var m := mem[..];
    mem[header + 4] := 1;
    Marked(m, mem[..], b);
  }

  lemma Marked(m: seq<Byte>, n: seq<Byte>, b: Block)
    requires Tagged(m, b) && n == m[b.addr + 4 := 1]
    ensures Tagged(n, b.(hole := true)) && SameOutside(m, n, b.addr, b.addr + HEADER)
  {
    var foot := b.addr + HEADER + b.size;
    assert Load32(n, b.addr) == Load32(m, b.addr) && Load32(n, b.addr + 5) == Load32(m, b.addr + 5);
    assert Load32(n, foot) == Load32(m, foot) && Load32(n, foot + 4) == Load32(m, foot + 4);
  }

  /** The test that free makes on a neighbour: right magic and free. */
  method TestHole(mem: array<Byte>, header: nat, ghost x: Block) returns (hole: bool)
    requires Tagged(mem[..], x) && header == x.addr
    ensures hole == x.hole
  {
    var magic := Fetch32(mem, header);
    hole := magic == MAGIC && mem[header + 4] == 1;
  }

  /** Swallow the free next block x: one larger block, and x leaves the index. */
  method Swallow(index: OA.OrderedArray, mem: array<Byte>, header: nat, size: nat, ghost x: Block, next: nat, ghost es: seq<Block>)
    returns (sum: nat)
    requires index.Valid() && Addresses(index.Items(), es) && AddrPos(es, next, 0) < |es|
    requires Tagged(mem[..], x) && x.addr == next == header + size + META && x.End() < WORD_MOD
    modifies mem, index`size, index.slots
    ensures index.Valid() && Addresses(index.Items(), RemoveAddr(es, next))
    ensures sum == size + x.size + META && Tagged(mem[..], Block(header, sum, true))
    ensures SameOutside(old(mem[..]), mem[..], header, x.End())
  {
    var n := Fetch32(mem, next + 5);
    sum := size + n + META;
    MakeBlock(mem, header, sum, true);
    ghost var m1 := mem[..];
    var found := RemoveByAddr(index, next, es);
    assert found;
    assert mem[..] == m1;
  }

  /** The forward half: mark the header free, and swallow a free next block. */
  method MergeForward(index: OA.OrderedArray, mem: array<Byte>, end: nat, addr: nat, ghost h: Heap, ghost k: nat) returns (size: nat)
    requires index.Valid() && Represents(mem[..], index.Items(), h) && HolesIndexed(h)
    requires k < |h.blocks| && addr == h.blocks[k].Payload() && end == h.end
    modifies mem, index`size, index.slots
    ensures index.Valid() && Addresses(index.Items(), ForwardIndex(h, k))
    ensures size == Forward(h, k).size && Tagged(mem[..], Forward(h, k))
    ensures SameOutside(old(mem[..]), mem[..], h.blocks[k].addr, Forward(h, k).End())
  {
    hide Represents, HolesIndexed, Addresses, RemoveAddr;
    ghost var m0, items := mem[..], index.Items();
    NextTags(m0, items, h, k);
    var header := addr - HEADER;
    size := Fetch32(mem, header + 5);
    MarkFree(mem, header, h.blocks[k]);
    assert index.Items() == items;
    var next := addr + size + FOOTER;
    var merge := false;
    if next < end {
      StillTagged(m0, mem[..], h.blocks[k + 1], header, header + HEADER);
      merge := TestHole(mem, next, h.blocks[k + 1]);
    }
    assert merge == NextHole(h, k);
    if merge {
      size := Swallow(index, mem, header, size, h.blocks[k + 1], next, h.index);
    }
  }

  /** The backward half: if the block before is free, it swallows this one and leaves the index. */
  method MergeBackward(index: OA.OrderedArray, mem: array<Byte>, start: nat, header: nat, size: nat,
                       ghost first: bool, ghost p: Block, ghost es: seq<Block>) returns (newHeader: nat)
    requires index.Valid() && Addresses(index.Items(), es)
    requires Tagged(mem[..], Block(header, size, true)) && header + size + META < WORD_MOD
    requires if first then header == start else Tagged(mem[..], p) && p.End() == header && start <= p.addr
    requires !first && p.hole ==> AddrPos(es, p.addr, 0) < |es|
    modifies mem, index`size, index.slots
    ensures var merge := !first && p.hole;
            && newHeader == (if merge then p.addr else header)
            && index.Valid() && Addresses(index.Items(), if merge then RemoveAddr(es, p.addr) else es)
            && Tagged(mem[..], Block(newHeader, if merge then p.size + size + META else size, true))
            && SameOutside(old(mem[..]), mem[..], newHeader, header + size + META)
  {
    newHeader := header;
    if header >= start + FOOTER {
      var magic := Fetch32(mem, header - FOOTER);
      var prev := Fetch32(mem, header - 4);
      if magic == MAGIC && mem[prev + 4] == 1 {
        var n := Fetch32(mem, prev + 5);
        MakeBlock(mem, prev, n + size + META, true);
        ghost var m1 := mem[..];
        var found := RemoveByAddr(index, prev, es);
        assert found;
        assert mem[..] == m1;
        newHeader := prev;
      }
    }
  }

  /** What the backward half and the insertion can rely on. */
  lemma BeforeBackward(m: seq<Byte>, n: seq<Byte>, items: seq<nat>, h: Heap, k: nat)
    requires Represents(m, items, h) && HolesIndexed(h) && k < |h.blocks| && h.blocks[k] !in h.index
    requires SameOutside(m, n, h.blocks[k].addr, Forward(h, k).End())
    ensures Forward(h, k).End() <= h.end < WORD_MOD
    ensures if k == 0 then h.blocks[k].addr == h.start
            else Tagged(n, h.blocks[k - 1]) && h.blocks[k - 1].End() == h.blocks[k].addr && h.start <= h.blocks[k - 1].addr
    ensures PrevHole(h, k) ==> AddrPos(ForwardIndex(h, k), h.blocks[k - 1].addr, 0) < |ForwardIndex(h, k)|
  {
    NextTags(m, items, h, k);
    if k > 0 {
      var j := k - 1;
      assert h.blocks[j].End() == h.blocks[j + 1].addr;
      StillTagged(m, n, h.blocks[k - 1], h.blocks[k].addr, Forward(h, k).End());
      if k > 1 {
        AddrOrder(h.blocks, h.start, h.end, 0, k - 1);
      }
      WithoutNext(h, k, ForwardIndex(h, k));
      if PrevHole(h, k) {
        RemoveAddrDistinct(ForwardIndex(h, k), h.blocks[k - 1]);
      }
    }
  }

  /** The entries left after both removals lie outside the merged block. */
  lemma PrunedOutside(h: Heap, k: nat)
    requires Coherent(h) && HolesIndexed(h) && k < |h.blocks| && h.blocks[k] !in h.index
    ensures var b := Merged(h.blocks, k).2;
            forall x :: x in Pruned(h, k) ==> x in h.blocks && (x.End() <= b.addr || b.End() <= x.addr)
  {
    var (lo, hi, b) := Merged(h.blocks, k);
    MergedRange(h, k);
    hide Merged, Pruned, HolesIndexed, Distinct, Tiled;
    PrunedEntries(h, k);
    forall x | x in Pruned(h, k) ensures x in h.blocks && (x.End() <= b.addr || b.End() <= x.addr) {
      assert x in h.index;
      OutsideRange(h, lo, hi, x);
    }
  }

  lemma OutsideRange(h: Heap, lo: nat, hi: nat, x: Block)
    requires Tiled(h.blocks, h.start, h.end) && lo < hi <= |h.blocks| && x in h.blocks
    requires forall j :: lo <= j < hi ==> x != h.blocks[j]
    ensures x.End() <= h.blocks[lo].addr || h.blocks[hi - 1].End() <= x.addr
  {
    var j :| 0 <= j < |h.blocks| && h.blocks[j] == x;
    if j < lo {
      AddrOrder(h.blocks, h.start, h.end, j, lo);
    } else {
      AddrOrder(h.blocks, h.start, h.end, hi - 1, j);
    }
  }

  /** No payload byte of a live block other than block k changes. */
  ghost predicate OthersKept(m: seq<Byte>, n: seq<Byte>, h: Heap, k: nat)
    requires k < |h.blocks|
  {
    && |m| == |n|
    && forall b, x :: b in h.blocks && !b.hole && b != h.blocks[k] && b.Payload() <= x < b.Payload() + b.size && x < |m| ==> m[x] == n[x]
  }

  lemma MergedKeepsOthers(m: seq<Byte>, n: seq<Byte>, h: Heap, k: nat)
    requires Tiled(h.blocks, h.start, h.end) && k < |h.blocks|
    requires var (lo, hi, _) := Merged(h.blocks, k); SameOutside(m, n, h.blocks[lo].addr, h.blocks[hi - 1].End())
    ensures OthersKept(m, n, h, k)
  {
    var (lo, hi, b) := Merged(h.blocks, k);
    forall c, x | c in h.blocks && !c.hole && c != h.blocks[k] && c.Payload() <= x < c.Payload() + c.size && x < |m|
      ensures m[x] == n[x]
    {
      OutsideRange(h, lo, hi, c);
    }
  }

  lemma MergedRange(h: Heap, k: nat)
    requires Tiled(h.blocks, h.start, h.end) && k < |h.blocks|
    ensures var (lo, hi, b) := Merged(h.blocks, k);
            b.addr == h.blocks[lo].addr && b.End() == h.blocks[hi - 1].End()
  {
  }

  lemma AfterFree(m: seq<Byte>, n: seq<Byte>, items: seq<nat>, h: Heap, k: nat)
    requires h.start <= h.end <= h.max <= |m| && h.max < WORD_MOD && Coherent(h) && HolesIndexed(h) && AllTagged(m, h.blocks)
    requires k < |h.blocks| && h.blocks[k] !in h.index
    requires var b := Merged(h.blocks, k).2;
             && Tagged(n, b) && SameOutside(m, n, b.addr, b.End())
             && Addresses(items, Insert(Pruned(h, k), b))
    ensures Represents(n, items, Free(h, k)) && OthersKept(m, n, h, k)
  {
    FreeTagged(m, n, h, k);
    FreeCoherent(h, k);
    assert Free(h, k).index == Insert(Pruned(h, k), Merged(h.blocks, k).2);
  }

  lemma FreeTagged(m: seq<Byte>, n: seq<Byte>, h: Heap, k: nat)
    requires Tiled(h.blocks, h.start, h.end) && AllTagged(m, h.blocks) && k < |h.blocks|
    requires var b := Merged(h.blocks, k).2; Tagged(n, b) && SameOutside(m, n, b.addr, b.End())
    ensures AllTagged(n, Free(h, k).blocks) && OthersKept(m, n, h, k)
  {
    var (lo, hi, b) := Merged(h.blocks, k);
    MergedRange(h, k);
    assert Free(h, k).blocks == h.blocks[..lo] + [b] + h.blocks[hi..];
    SpliceTagged(m, n, h.blocks, h.start, h.end, lo, hi, [b]);
    MergedKeepsOthers(m, n, h, k);
  }

  /** Both merges of free, before the insertion. */
  method MergeBoth(index: OA.OrderedArray, mem: array<Byte>, start: nat, end: nat, addr: nat, ghost h: Heap, ghost k: nat)
    returns (newHeader: nat)
    requires index.Valid() && Represents(mem[..], index.Items(), h) && HolesIndexed(h)
    requires k < |h.blocks| && h.blocks[k] !in h.index && addr == h.blocks[k].Payload() && start == h.start && end == h.end
    modifies mem, index`size, index.slots
    ensures var b := Merged(h.blocks, k).2;
            && newHeader == b.addr && Tagged(mem[..], b) && SameOutside(old(mem[..]), mem[..], b.addr, b.End())
            && index.Valid() && Addresses(index.Items(), Pruned(h, k))
  {
    hide Represents, HolesIndexed, Tagged, Addresses, RemoveAddr, Pruned, Merged;
    ghost var m0, items := mem[..], index.Items();
    var size := MergeForward(index, mem, end, addr, h, k);
    BeforeBackward(m0, mem[..], items, h, k);
    ghost var m1, f, es := mem[..], Forward(h, k), ForwardIndex(h, k);
    ghost var first := k == 0;
    ghost var p := if first then h.blocks[k] else h.blocks[k - 1];
    newHeader := MergeBackward(index, mem, start, addr - HEADER, size, first, p, es);
    ghost var merge := !first && p.hole;
    ghost var b := Block(newHeader, if merge then p.size + size + META else size, true);
    assert Merged(h.blocks, k).2 == b && Pruned(h, k) == if merge then RemoveAddr(es, p.addr) else es by {
      MergedIs(h, k);
    }
    SameOutsideTwice(m0, m1, mem[..], f.addr, f.End(), b.addr);
  }

  lemma SameOutsideTwice(m: seq<Byte>, n: seq<Byte>, q: seq<Byte>, a: nat, hi: nat, lo: nat)
    requires SameOutside(m, n, a, hi) && SameOutside(n, q, lo, hi) && lo <= a
    ensures SameOutside(m, q, lo, hi)
  {
  }

  lemma PrunedSizes(m: seq<Byte>, n: seq<Byte>, h: Heap, k: nat)
    requires Coherent(h) && HolesIndexed(h) && AllTagged(m, h.blocks) && k < |h.blocks| && h.blocks[k] !in h.index
    requires var b := Merged(h.blocks, k).2; SameOutside(m, n, b.addr, b.End())
    ensures SizesIn(n, Pruned(h, k))
  {
    var b := Merged(h.blocks, k).2;
    PrunedOutside(h, k);
    TaggedSizes(m, h.blocks, Pruned(h, k));
    SizesOutside(m, n, Pruned(h, k), b.addr, b.End());
  }

  /** free of block k. */
  method FreeIn(index: OA.OrderedArray, mem: array<Byte>, start: nat, end: nat, addr: nat, ghost h: Heap, ghost k: nat)
    requires index.Valid() && index.slots.Length == CAP && Represents(mem[..], index.Items(), h) && HolesIndexed(h)
    requires k < |h.blocks| && h.blocks[k] !in h.index && addr == h.blocks[k].Payload() && start == h.start && end == h.end
    modifies mem, index`size, index.slots
    ensures index.Valid() && Represents(mem[..], index.Items(), Free(h, k)) && OthersKept(old(mem[..]), mem[..], h, k)
  {
    hide Represents, HolesIndexed, Tagged, Addresses, Pruned, Merged, Free, SizesIn, Coherent, AllTagged, OthersKept, Insert;
    ghost var m0 := mem[..];
    FreeStarts(m0, index.Items(), h);
    var newHeader := MergeBoth(index, mem, start, end, addr, h, k);
    ghost var m2 := mem[..];
    PrunedSizes(m0, m2, h, k);
    TaggedSized(m2, Merged(h.blocks, k).2);
    InsertBySize(index, mem, newHeader, Pruned(h, k), Merged(h.blocks, k).2);
    assert mem[..] == m2;
    AfterFree(m0, m2, index.Items(), h, k);
  }

  lemma FreeStarts(m: seq<Byte>, items: seq<nat>, h: Heap)
    requires Represents(m, items, h)
    ensures h.start <= h.end <= h.max <= |m| && h.max < WORD_MOD && Coherent(h) && AllTagged(m, h.blocks)
  {
  }

  lemma TaggedSized(m: seq<Byte>, b: Block)
    requires Tagged(m, b)
    ensures Sized(m, b)
  {
  }
}
