/** alloc (src/mem/kheap.c:83-197) on memory: find, expand, carve. */
module HeapAlloc {
  import opened Wrappers
  import opened Bytes
  import opened HeapSpec
  import opened HeapInv
  import opened HeapOps
  import opened HeapMalloc
  import opened HeapFree
  import opened HeapCoherent
  import opened HeapCode
  import OA = OrderedArray

  /** No payload byte of a live allocation changes from m to n. */
  ghost predicate PayloadsKept(m: seq<Byte>, n: seq<Byte>, h: Heap) {
    && |m| == |n|
    && forall b, x :: b in h.blocks && !b.hole && b !in h.index && b.Payload() <= x < b.Payload() + b.size && x < |m|
                      ==> m[x] == n[x]
  }

  // ---------------------------------------------------------------- pure steps

  lemma {:induction false} InsertAllConcat(es: seq<Block>, f: seq<Block>, t: seq<Block>)
    ensures InsertAll(InsertAll(es, f), t) == InsertAll(es, f + t)
    decreases |f|
  {
    if f == [] {
      assert f + t == t;
    } else {
      assert (f + t)[0] == f[0] && (f + t)[1..] == f[1..] + t;
      InsertAllConcat(Insert(es, f[0]), f[1..], t);
    }
  }

  /** Entries that stay after entry i is taken lie outside its block. */
  lemma StayOutside(h: Heap, i: nat)
    requires Coherent(h) && i < |h.index|
    ensures forall x :: x in RemoveAt(h.index, i) ==> x in h.blocks && (x.End() <= h.index[i].addr || h.index[i].End() <= x.addr)
  {
    RemoveDistinct(h.index, i);
    assert h.index[i] in h.blocks;
    var k :| 0 <= k < |h.blocks| && h.blocks[k] == h.index[i];
    forall x | x in RemoveAt(h.index, i) ensures x in h.blocks && (x.End() <= h.index[i].addr || h.index[i].End() <= x.addr) {
      OtherSide(h.blocks, h.start, h.end, k, x);
    }
  }

  lemma FrontMembers(es: seq<Block>, b: Block, pos: nat)
    requires b.Payload() <= pos <= b.Payload() + b.size
    requires forall x :: x in es ==> x.End() <= b.addr || b.End() <= x.addr
    ensures forall x :: x in InsertAll(es, Front(b, pos)) ==> x.End() <= pos - HEADER || b.End() <= x.addr
  {
    if Front(b, pos) != [] {
      InsertAllOne(es, Front(b, pos));
      forall x | x in Insert(es, Front(b, pos)[0]) ensures x in es || x == Front(b, pos)[0] {
      }
    }
  }

  lemma SplitTagged(m: seq<Byte>, n: seq<Byte>, b: Block, pos: nat, size: nat)
    requires b.Payload() <= pos && pos + size <= b.Payload() + b.size
    requires AllTagged(m, Front(b, pos)) && SameOutside(m, n, pos - HEADER, b.End())
    requires Tagged(n, Middle(b, pos, size)) && AllTagged(n, Rest(b, pos, size))
    ensures AllTagged(n, Split(b, pos, size))
  {
    if Front(b, pos) != [] {
      StillTagged(m, n, Front(b, pos)[0], pos - HEADER, b.End());
    }
  }

  /** Rewriting one block leaves the payloads of all other live blocks alone. */
  lemma BlockKept(m: seq<Byte>, n: seq<Byte>, h: Heap, k: nat)
    requires Tiled(h.blocks, h.start, h.end) && k < |h.blocks| && (h.blocks[k].hole || h.blocks[k] in h.index)
    requires SameOutside(m, n, h.blocks[k].addr, h.blocks[k].End())
    ensures PayloadsKept(m, n, h)
  {
    forall b, x | b in h.blocks && !b.hole && b !in h.index && b.Payload() <= x < b.Payload() + b.size && x < |m|
      ensures m[x] == n[x]
    {
      OtherSide(h.blocks, h.start, h.end, k, b);
    }
  }

  /** Writing from the last block on when it is free, or from the end on, touches no live payload. */
  lemma TailKept(m: seq<Byte>, n: seq<Byte>, h: Heap, lo: nat, hi: nat)
    requires Tiled(h.blocks, h.start, h.end) && SameOutside(m, n, lo, hi)
    requires lo == if h.blocks[|h.blocks| - 1].hole then h.blocks[|h.blocks| - 1].addr else h.end
    ensures PayloadsKept(m, n, h)
  {
    forall b, x | b in h.blocks && !b.hole && b !in h.index && b.Payload() <= x < b.Payload() + b.size && x < |m|
      ensures m[x] == n[x]
    {
      InsideHeap(h, b);
      if lo != h.end {
        OtherSide(h.blocks, h.start, h.end, |h.blocks| - 1, b);
      }
    }
  }

  lemma RemoveAddrMember(es: seq<Block>, a: nat, x: Block)
    requires x in RemoveAddr(es, a)
    ensures x in es
  {
  }

  lemma InsertMember(es: seq<Block>, b: Block, x: Block)
    requires x in Insert(es, b)
    ensures x in es || x == b
  {
  }

  /** The block that expansion grows or appends. */
  ghost function NewTail(h: Heap, ext: nat): Block
    requires h.blocks != [] && ext >= META
  {
    var last := h.blocks[|h.blocks| - 1];
    if last.hole then Block(last.addr, last.size + ext, true) else Block(h.end, ext - META, false)
  }

  lemma ExpandedIndex(h: Heap, ext: nat, x: Block)
    requires h.blocks != [] && ext >= META && x in Expand(h, ext).index
    ensures x in h.index || x == NewTail(h, ext)
  {
    var last := h.blocks[|h.blocks| - 1];
    if last.hole {
      var es := RemoveAddr(h.index, last.addr);
      assert Expand(h, ext).index == Insert(es, NewTail(h, ext));
      InsertMember(es, NewTail(h, ext), x);
      if x in es {
        RemoveAddrMember(h.index, last.addr, x);
      }
    } else {
      assert Expand(h, ext).index == Insert(h.index, NewTail(h, ext));
      InsertMember(h.index, NewTail(h, ext), x);
    }
  }

  lemma LiveStaysLive(h: Heap, ext: nat, b: Block)
    requires Coherent(h) && ext >= META && b in h.blocks && !b.hole && b !in h.index
    ensures var e := Expand(h, ext); b in e.blocks && b !in e.index
  {
    InsideHeap(h, b);
    var j :| 0 <= j < |h.blocks| && h.blocks[j] == b;
    assert Expand(h, ext).blocks[j] == b;
    if b in Expand(h, ext).index {
      ExpandedIndex(h, ext, b);
    }
  }

  lemma KeptTwice(m: seq<Byte>, n: seq<Byte>, q: seq<Byte>, h: Heap, ext: nat)
    requires Coherent(h) && ext >= META
    requires PayloadsKept(m, n, h) && PayloadsKept(n, q, Expand(h, ext))
    ensures PayloadsKept(m, q, h)
  {
    forall b, x | b in h.blocks && !b.hole && b !in h.index && b.Payload() <= x < b.Payload() + b.size && x < |m|
      ensures m[x] == q[x]
    {
      LiveStaysLive(h, ext, b);
      assert m[x] == n[x];
    }
  }

  /** What alloc knows about the index entry it is about to take. */
  lemma BeforeTake(m: seq<Byte>, items: seq<nat>, h: Heap, i: nat, pos: nat, size: nat, align: bool)
    requires Represents(m, items, h) && i < |h.index| && Fit(h.index[i], size, align) == Some(pos)
    ensures var b, es := h.index[i], RemoveAt(h.index, i);
            && Tagged(m, b) && b.End() <= h.end && SizesIn(m, es)
            && b.Payload() <= pos && pos + size <= b.Payload() + b.size && (pos == b.Payload() || pos - b.Payload() > META)
            && (forall x :: x in es ==> x.End() <= b.addr || b.End() <= x.addr)
  {
    var b := h.index[i];
    FitBounds(b, size, align, pos);
    assert b in h.blocks;
    var k :| 0 <= k < |h.blocks| && h.blocks[k] == b;
    assert Tagged(m, h.blocks[k]);
    InsideHeap(h, b);
    StayOutside(h, i);
    TaggedSizes(m, h.blocks, RemoveAt(h.index, i));
  }

  /** The writes of alloc give the heap that Take describes. */
  lemma AfterTake(m: seq<Byte>, n: seq<Byte>, items: seq<nat>, h: Heap, i: nat, pos: nat, size: nat)
    requires h.start <= h.end <= h.max <= |m| && h.max < WORD_MOD && Coherent(h) && AllTagged(m, h.blocks)
    requires i < |h.index| && size > 0
    requires var b := h.index[i];
             && b.Payload() <= pos && pos + size <= b.Payload() + b.size && (pos == b.Payload() || pos - b.Payload() > META)
             && AllTagged(n, Split(b, pos, size)) && SameOutside(m, n, b.addr, b.End())
             && Addresses(items, InsertAll(RemoveAt(h.index, i), Front(b, pos) + Rest(b, pos, size)))
    ensures var r := Take(h, i, pos, size);
            r.Got? && r.ptr == pos && r.heap.end == h.end && r.heap.start == h.start && r.heap.max == h.max
            && Represents(n, items, r.heap) && PayloadsKept(m, n, h)
  {
    TakeCoherent(h, i, pos, size);
    var k := AddrPos(h.blocks, h.index[i].addr, 0);
    SpliceTagged(m, n, h.blocks, h.start, h.end, k, k + 1, Split(h.blocks[k], pos, size));
    BlockKept(m, n, h, k);
  }

  /** The writes of alloc inside the block b that it takes: front, allocated and rest block. */
  method CarveOut(index: OA.OrderedArray, mem: array<Byte>, header: nat, blockSize: nat, pos: nat, size: nat,
                  ghost b: Block, ghost es: seq<Block>)
    requires index.Valid() && index.slots.Length == CAP && Addresses(index.Items(), es) && SizesIn(mem[..], es)
    requires header == b.addr && blockSize == b.size && b.End() <= mem.Length && b.End() < WORD_MOD
    requires b.Payload() <= pos && pos + size <= b.Payload() + b.size && (pos == b.Payload() || pos - b.Payload() > META)
    requires forall x :: x in es ==> x.End() <= b.addr || b.End() <= x.addr
    modifies mem, index`size, index.slots
    ensures index.Valid() && Addresses(index.Items(), InsertAll(es, Front(b, pos) + Rest(b, pos, size)))
    ensures AllTagged(mem[..], Split(b, pos, size)) && SameOutside(old(mem[..]), mem[..], b.addr, b.End())
  {
    CutFront(index, mem, b, header, pos, es);
    ghost var m1 := mem[..];
    FrontMembers(es, b, pos);
    CutMiddleAndRest(index, mem, b, pos, size, header + HEADER + blockSize - pos - size, InsertAll(es, Front(b, pos)));
    SplitTagged(m1, mem[..], b, pos, size);
    InsertAllConcat(es, Front(b, pos), Rest(b, pos, size));
  }

  /** Read the header of index entry i and drop the entry. */
  method PopEntry(index: OA.OrderedArray, mem: array<Byte>, i: nat, ghost es: seq<Block>) returns (header: nat, blockSize: nat)
    requires index.Valid() && Addresses(index.Items(), es) && i < |es| && Sized(mem[..], es[i])
    modifies index`size, index.slots
    ensures header == es[i].addr && blockSize == es[i].size
    ensures index.Valid() && Addresses(index.Items(), RemoveAt(es, i))
  {
    header := index.Get(i);
    blockSize := Fetch32(mem, header + 5);
    index.Remove(i);
  }

  /** The part of alloc after a hole has been found. */
  method TakeAt(index: OA.OrderedArray, mem: array<Byte>, i: nat, pos: nat, size: nat, align: bool, ghost h: Heap)
    requires index.Valid() && index.slots.Length == CAP && Represents(mem[..], index.Items(), h)
    requires i < |h.index| && size > 0 && Fit(h.index[i], size, align) == Some(pos)
    modifies mem, index`size, index.slots
    ensures index.Valid() && Take(h, i, pos, size).Got? && Represents(mem[..], index.Items(), Take(h, i, pos, size).heap)
    ensures PayloadsKept(old(mem[..]), mem[..], h)
  {
    ghost var m0 := mem[..];
    BeforeTake(m0, index.Items(), h, i, pos, size, align);
    var header, blockSize := PopEntry(index, mem, i, h.index);
    assert mem[..] == m0;
    CarveOut(index, mem, header, blockSize, pos, size, h.index[i], RemoveAt(h.index, i));
    AfterTake(m0, mem[..], index.Items(), h, i, pos, size);
  }

  lemma LastBlock(m: seq<Byte>, items: seq<nat>, h: Heap)
    requires Represents(m, items, h)
    ensures var last := h.blocks[|h.blocks| - 1];
            last.End() == h.end && Tagged(m, last) && Load32(m, h.end - 4) == last.addr
  {
  }

  lemma GrownDone(m: seq<Byte>, n: seq<Byte>, items: seq<nat>, h: Heap, ext: nat, lo: nat)
    requires h.start <= h.end && h.end + ext <= h.max <= |m| && h.max < WORD_MOD && Coherent(h) && HolesIndexed(h)
    requires ext >= META && |h.index| <= CAP
    requires AllTagged(n, Expand(h, ext).blocks) && Addresses(items, Expand(h, ext).index)
    requires lo == (if h.blocks[|h.blocks| - 1].hole then h.blocks[|h.blocks| - 1].addr else h.end) && SameOutside(m, n, lo, h.end + ext)
    ensures Represents(n, items, Expand(h, ext)) && HolesIndexed(Expand(h, ext)) && PayloadsKept(m, n, h)
  {
    ExpandCoherent(h, ext);
    TailKept(m, n, h, lo, h.end + ext);
  }

  /** kheap_expand and the treatment of the last block; ok is false where kheap_expand asserts. */
  method Grow(index: OA.OrderedArray, mem: array<Byte>, end: nat, max: nat, size: nat, ghost h: Heap) returns (ok: bool, newEnd: nat)
    requires index.Valid() && index.slots.Length == CAP && Represents(mem[..], index.Items(), h)
    requires HolesIndexed(h) && h.end == end && h.max == max
    modifies mem, index`size, index.slots
    ensures ok == (end + AlignUp(size + META) <= max)
    ensures index.Valid()
    ensures ok ==> && Represents(mem[..], index.Items(), Expand(h, AlignUp(size + META)))
                   && HolesIndexed(Expand(h, AlignUp(size + META))) && newEnd == Expand(h, AlignUp(size + META)).end
                   && PayloadsKept(old(mem[..]), mem[..], h)
  {
    var ext := AlignUp(size + META);
    newEnd := end + ext;
    if newEnd > max {
      return false, newEnd;
    }
    ghost var m0 := mem[..];
    LastBlock(m0, index.Items(), h);
    var last := Fetch32(mem, end - 4);
    if mem[last + 4] == 1 {
      GrowLast(index, mem, last, ext, h);
      GrownDone(m0, mem[..], index.Items(), h, ext, last);
    } else {
      AppendBlock(index, mem, ext, h, end);
      GrownDone(m0, mem[..], index.Items(), h, ext, end);
    }
    ok := true;
  }

  /** What the caller of alloc gets, given the heap before. */
  ghost predicate AllocDone(r: Option<nat>, newEnd: nat, h: Heap, size: nat, align: bool, m: seq<Byte>, n: seq<Byte>, items: seq<nat>)
    requires h.blocks != []
  {
    match Alloc(h, size, align)
    case Got(x, p) => r == Some(p) && newEnd == x.end && x.start == h.start && x.max == h.max
                      && Represents(n, items, x) && PayloadsKept(m, n, h)
    case OutOfHeap => r == None
    case Corrupt => false
  }

  /** alloc, with its one recursive call after expanding. */
  method AllocIn(index: OA.OrderedArray, mem: array<Byte>, end: nat, max: nat, size: nat, align: bool, ghost h: Heap)
    returns (r: Option<nat>, newEnd: nat)
    requires index.Valid() && index.slots.Length == CAP && Represents(mem[..], index.Items(), h)
    requires HolesIndexed(h) && h.end == end && h.max == max && size > 0
    modifies mem, index`size, index.slots
    ensures index.Valid() && AllocDone(r, newEnd, h, size, align, old(mem[..]), mem[..], index.Items())
    decreases max - end
  {
    ghost var m0 := mem[..];
    TaggedSizes(m0, h.blocks, h.index);
    var found := FindHoleIn(index, mem, size, align, h.index);
    if found.Some? {
      var (i, pos) := found.value;
      TakeAt(index, mem, i, pos, size, align, h);
      r, newEnd := Some(pos), end;
      FoundDone(h, size, align, i, pos, m0, mem[..], index.Items());
      return;
    }
    var ok, e := Grow(index, mem, end, max, size, h);
    if !ok {
      r, newEnd := None, end;
      assert AllocDone(r, newEnd, h, size, align, m0, mem[..], index.Items());
      return;
    }
    ghost var m1 := mem[..];
    r, newEnd := AllocIn(index, mem, e, max, size, align, Expand(h, AlignUp(size + META)));
    AfterGrowth(r, newEnd, h, size, align, m0, m1, mem[..], index.Items());
  }

  lemma FoundDone(h: Heap, size: nat, align: bool, i: nat, pos: nat, m: seq<Byte>, n: seq<Byte>, items: seq<nat>)
    requires h.blocks != [] && FindHole(h.index, size, align, 0) == Some((i, pos)) && Take(h, i, pos, size).Got?
    requires Represents(n, items, Take(h, i, pos, size).heap) && PayloadsKept(m, n, h)
    ensures AllocDone(Some(pos), h.end, h, size, align, m, n, items)
  {
    assert Alloc(h, size, align) == Take(h, i, pos, size);
  }

  lemma AfterGrowth(r: Option<nat>, newEnd: nat, h: Heap, size: nat, align: bool, m: seq<Byte>, n: seq<Byte>, q: seq<Byte>, items: seq<nat>)
    requires Coherent(h) && FindHole(h.index, size, align, 0).None? && h.end + AlignUp(size + META) <= h.max
    requires PayloadsKept(m, n, h) && AllocDone(r, newEnd, Expand(h, AlignUp(size + META)), size, align, n, q, items)
    ensures AllocDone(r, newEnd, h, size, align, m, q, items)
  {
    assert Alloc(h, size, align) == Alloc(Expand(h, AlignUp(size + META)), size, align);
    if Alloc(h, size, align).Got? {
      KeptTwice(m, n, q, h, AlignUp(size + META));
    }
  }

  lemma CreateRepresents(m: seq<Byte>, items: seq<nat>, first: nat, e: nat, limit: nat)
    requires first + META <= e <= limit == |m| < WORD_MOD && Tagged(m, Block(first, e - first - META, true))
    requires Addresses(items, Insert([], Block(first, e - first - META, true)))
    ensures Represents(m, items, Create(first, e, limit))
  {
    var b := Block(first, e - first - META, true);
    assert Insert([], b) == [b];
  }
}
