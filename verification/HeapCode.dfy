/**
  src/mem/kheap.c on raw memory: packed headers and footers written byte by byte, an index
  of header addresses ordered by the sizes read through them.
 */
module HeapCode {
  import opened Wrappers
  import opened Bytes
  import opened HeapSpec
  import opened HeapInv
  import opened HeapCoherent
  import OA = OrderedArray

  const MAGIC: nat := 0x123060AB

  /** The header and footer of block b are in memory m. */
  ghost predicate Tagged(m: seq<Byte>, b: Block) {
    && b.End() <= |m|
    && Load32(m, b.addr) == MAGIC
    && m[b.addr + 4] == (if b.hole then 1 else 0)
    && Load32(m, b.addr + 5) == b.size
    && Load32(m, b.addr + HEADER + b.size) == MAGIC
    && Load32(m, b.addr + HEADER + b.size + 4) == b.addr
  }

  /** n differs from m at most in the header and footer bytes of block b. */
  ghost predicate OnlyTags(m: seq<Byte>, n: seq<Byte>, b: Block) {
    |m| == |n| && forall x :: 0 <= x < |m| && !(b.addr <= x < b.addr + HEADER) && !(b.addr + HEADER + b.size <= x < b.End())
                              ==> m[x] == n[x]
  }

  /** make_block writes nine header bytes and eight footer bytes and nothing else. */
  method MakeBlock(mem: array<Byte>, a: nat, size: nat, hole: bool)
    requires a + size + META <= mem.Length && a + size + META < WORD_MOD
    modifies mem
    ensures Tagged(mem[..], Block(a, size, hole))
    ensures OnlyTags(old(mem[..]), mem[..], Block(a, size, hole))
    ensures SameOutside(old(mem[..]), mem[..], a, a + size + META)
  {
    ghost var m0 := mem[..];
    Store32(mem, a, MAGIC);
    ghost var m1 := mem[..];
    mem[a + 4] := if hole then 1 else 0;
    ghost var m2 := mem[..];
    Store32(mem, a + 5, size);
    ghost var m3 := mem[..];
    Store32(mem, a + HEADER + size, MAGIC);
    ghost var m4 := mem[..];
    Store32(mem, a + HEADER + size + 4, a);
    HeaderWritten(m0, m1, m2, m3, a, size, hole);
    FooterWritten(m3, m4, mem[..], a, size);
    hide Load32;
    BlockWritten(m0, m3, mem[..], a, size, hole);
  }

  /** The nine header bytes. */
  ghost predicate HeaderAt(m: seq<Byte>, a: nat, size: nat, hole: bool) {
    a + HEADER <= |m| && Load32(m, a) == MAGIC && m[a + 4] == (if hole then 1 else 0) && Load32(m, a + 5) == size
  }

  lemma HeaderWritten(m0: seq<Byte>, m1: seq<Byte>, m2: seq<Byte>, m3: seq<Byte>, a: nat, size: nat, hole: bool)
    requires a + HEADER <= |m0| && SameOutside(m0, m1, a, a + 4) && Load32(m1, a) == MAGIC
    requires m2 == m1[a + 4 := if hole then 1 else 0] && SameOutside(m2, m3, a + 5, a + 9) && Load32(m3, a + 5) == size
    ensures HeaderAt(m3, a, size, hole) && SameOutside(m0, m3, a, a + HEADER)
  {
    assert Load32(m3, a) == Load32(m1, a);
  }

  lemma FooterWritten(m3: seq<Byte>, m4: seq<Byte>, m5: seq<Byte>, a: nat, size: nat)
    requires a + size + META <= |m3| && SameOutside(m3, m4, a + HEADER + size, a + HEADER + size + 4) && Load32(m4, a + HEADER + size) == MAGIC
    requires SameOutside(m4, m5, a + HEADER + size + 4, a + size + META) && Load32(m5, a + HEADER + size + 4) == a
    ensures Load32(m5, a + HEADER + size) == MAGIC && SameOutside(m3, m5, a + HEADER + size, a + size + META)
  {
    assert Load32(m5, a + HEADER + size) == Load32(m4, a + HEADER + size);
  }

  lemma BlockWritten(m0: seq<Byte>, m3: seq<Byte>, m5: seq<Byte>, a: nat, size: nat, hole: bool)
    requires a + size + META <= |m0| && HeaderAt(m3, a, size, hole) && SameOutside(m0, m3, a, a + HEADER)
    requires SameOutside(m3, m5, a + HEADER + size, a + size + META)
    requires Load32(m5, a + HEADER + size) == MAGIC && Load32(m5, a + HEADER + size + 4) == a
    ensures Tagged(m5, Block(a, size, hole)) && OnlyTags(m0, m5, Block(a, size, hole)) && SameOutside(m0, m5, a, a + size + META)
  {
    assert Load32(m5, a) == Load32(m3, a) && Load32(m5, a + 5) == Load32(m3, a + 5) && m5[a + 4] == m3[a + 4];
  }

  /** Writes inside lo..hi leave the tags of a block outside it alone. */
  lemma StillTagged(m: seq<Byte>, n: seq<Byte>, b: Block, lo: nat, hi: nat)
    requires Tagged(m, b) && (b.End() <= lo || hi <= b.addr) && SameOutside(m, n, lo, hi)
    ensures Tagged(n, b)
  {
  }

  /** The size field of block b is in memory. */
  ghost predicate Sized(m: seq<Byte>, b: Block) {
    b.addr + HEADER <= |m| && Load32(m, b.addr + 5) == b.size
  }

  /** The size read through an index entry is the entry's size. */
  ghost predicate SizesIn(m: seq<Byte>, es: seq<Block>) {
    forall x :: x in es ==> Sized(m, x)
  }

  ghost predicate AllTagged(m: seq<Byte>, bs: seq<Block>) {
    forall k :: 0 <= k < |bs| ==> Tagged(m, bs[k])
  }

  lemma TaggedSizes(m: seq<Byte>, bs: seq<Block>, es: seq<Block>)
    requires AllTagged(m, bs) && Entries(es, bs)
    ensures SizesIn(m, es)
  {
    forall x | x in es ensures Sized(m, x) {
      assert x in bs;
      var k :| 0 <= k < |bs| && bs[k] == x;
      assert Tagged(m, bs[k]);
    }
  }

  /** Entries outside lo..hi keep their sizes when only lo..hi is written. */
  lemma SizesOutside(m: seq<Byte>, n: seq<Byte>, es: seq<Block>, lo: nat, hi: nat)
    requires SizesIn(m, es) && SameOutside(m, n, lo, hi)
    requires forall x :: x in es ==> x.End() <= lo || hi <= x.addr
    ensures SizesIn(n, es)
  {
    forall x | x in es ensures Sized(n, x) {
      assert Sized(m, x);
    }
  }

  lemma InsertSizes(m: seq<Byte>, es: seq<Block>, b: Block)
    requires SizesIn(m, es) && Sized(m, b)
    ensures SizesIn(m, Insert(es, b))
  {
    forall x | x in Insert(es, b) ensures x in es || x == b {
    }
  }

  /** Blocks lo..hi are rewritten and nothing outside them. */
  lemma SpliceTagged(m: seq<Byte>, n: seq<Byte>, bs: seq<Block>, start: nat, end: nat, lo: nat, hi: nat, mid: seq<Block>)
    requires Tiled(bs, start, end) && AllTagged(m, bs) && lo < hi <= |bs| && AllTagged(n, mid)
    requires SameOutside(m, n, bs[lo].addr, bs[hi - 1].End())
    ensures AllTagged(n, bs[..lo] + mid + bs[hi..])
  {
    var r := bs[..lo] + mid + bs[hi..];
    forall k | 0 <= k < |r| ensures Tagged(n, r[k]) {
      if k < lo {
        AddrOrder(bs, start, end, k, lo);
        StillTagged(m, n, bs[k], bs[lo].addr, bs[hi - 1].End());
      } else if k >= lo + |mid| {
        var j := k - lo - |mid| + hi;
        AddrOrder(bs, start, end, hi - 1, j);
        StillTagged(m, n, bs[j], bs[lo].addr, bs[hi - 1].End());
      }
    }
  }

  /** The index array holds the addresses of the entries. */
  ghost predicate Addresses(items: seq<nat>, es: seq<Block>) {
    |items| == |es| && forall i :: 0 <= i < |es| ==> items[i] == es[i].addr
  }

  /** ordered_array_insert with kheap_block_comparator, which reads the sizes through the headers. */
  method InsertBySize(index: OA.OrderedArray, mem: array<Byte>, a: nat, ghost es: seq<Block>, ghost b: Block)
    requires index.Valid() && index.slots.Length == CAP && Addresses(index.Items(), es)
    requires SizesIn(mem[..], es) && a == b.addr && Sized(mem[..], b)
    modifies index`size, index.slots
    ensures index.Valid() && Addresses(index.Items(), Insert(es, b))
  {
    hide Insert;
    ghost var items := index.Items();
    assert forall i :: 0 <= i < |es| ==> Sized(mem[..], es[i]);
    var key := (x: nat) requires x + HEADER <= mem.Length reads mem => Word(mem[x + 5], mem[x + 6], mem[x + 7], mem[x + 8]);
    assert forall i :: 0 <= i < index.size ==> index.slots[i] == items[i];
    var ok, p := index.Insert(a, key, SizesOf(es));
    if ok {
      MirrorInsert(es, items, p, b);
      InsertedAt(es, b, p);
    } else {
      DroppedWhenFull(es, b);
    }
  }

  lemma DroppedWhenFull(es: seq<Block>, b: Block)
    requires |es| >= CAP
    ensures Insert(es, b) == es
  {
  }

  /** ordered_array_remove_element on the index. */
  method RemoveByAddr(index: OA.OrderedArray, a: nat, ghost es: seq<Block>) returns (found: bool)
    requires index.Valid() && Addresses(index.Items(), es)
    modifies index`size, index.slots
    ensures index.Valid() && Addresses(index.Items(), RemoveAddr(es, a))
    ensures found == (AddrPos(es, a, 0) < |es|)
  {
    ghost var items := index.Items();
    ghost var p;
    found, p := index.RemoveElement(a);
    PosOfAddr(es, items, a, found, p);
  }

  /** Take a block out of the index by address and put it back by its new size. */
  method Reindex(index: OA.OrderedArray, mem: array<Byte>, a: nat, ghost es: seq<Block>, ghost b: Block)
    requires index.Valid() && index.slots.Length == CAP && Addresses(index.Items(), es) && AddrPos(es, a, 0) < |es|
    requires SizesIn(mem[..], RemoveAddr(es, a)) && a == b.addr && Sized(mem[..], b)
    modifies index`size, index.slots
    ensures index.Valid() && Addresses(index.Items(), Insert(RemoveAddr(es, a), b))
  {
    var found := RemoveByAddr(index, a, es);
    assert found;
    InsertBySize(index, mem, a, RemoveAddr(es, a), b);
  }

  // ---------------------------------------------------------------- kheap_find_hole

  method FindAligned(from: nat, to_: nat, size: nat) returns (r: Option<nat>)
    requires from <= to_
    ensures r == AlignedPos(from, to_, size, AlignUp(from))
  {
    var p := AlignUp(from);
    while p + size <= to_
      invariant from <= p
      invariant AlignedPos(from, to_, size, AlignUp(from)) == AlignedPos(from, to_, size, p)
      decreases to_ - p
    {
      if p - from == 0 || p - from > META {
        return Some(p);
      }
      p := p + PAGE;
    }
    return None;
  }

  method FindHoleIn(index: OA.OrderedArray, mem: array<Byte>, size: nat, align: bool, ghost es: seq<Block>)
    returns (r: Option<(nat, nat)>)
    requires index.Valid() && Addresses(index.Items(), es) && SizesIn(mem[..], es)
    ensures r == FindHole(es, size, align, 0)
  {
    var i := 0;
    while i < index.size
      invariant i <= index.size
      invariant FindHole(es, size, align, 0) == FindHole(es, size, align, i)
    {
      var h := index.Get(i);
      assert h == es[i].addr && Sized(mem[..], es[i]);
      var n := Fetch32(mem, h + 5);
      var fit: Option<nat> := None;
      if align {
        fit := FindAligned(h + HEADER, h + HEADER + n, size);
      } else if n >= size {
        fit := Some(h + HEADER);
      }
      assert fit == Fit(es[i], size, align);
      if fit.Some? {
        return Some((i, fit.value));
      }
      i := i + 1;
    }
    return None;
  }

  // ---------------------------------------------------------------- expansion

  /** The heap h is what memory m and the index items hold. */
  ghost predicate Represents(m: seq<Byte>, items: seq<nat>, h: Heap) {
    && h.start <= h.end <= h.max <= |m| && h.max < WORD_MOD
    && Coherent(h)
    && AllTagged(m, h.blocks)
    && Addresses(items, h.index)
  }

  /** The last block is a hole: resize it in memory while it is in the index, then re-insert it. */
  method GrowLast(index: OA.OrderedArray, mem: array<Byte>, header: nat, ext: nat, ghost h: Heap)
    requires index.Valid() && index.slots.Length == CAP && Represents(mem[..], index.Items(), h)
    requires ext >= META && h.end + ext <= h.max
    requires h.blocks[|h.blocks| - 1].hole && h.blocks[|h.blocks| - 1] in h.index && header == h.blocks[|h.blocks| - 1].addr
    modifies mem, index`size, index.slots
    ensures index.Valid() && Addresses(index.Items(), Expand(h, ext).index)
    ensures AllTagged(mem[..], Expand(h, ext).blocks)
    ensures SameOutside(old(mem[..]), mem[..], header, h.end + ext)
  {
    ghost var m0 := mem[..];
    ghost var last := h.blocks[|h.blocks| - 1];
    assert Tagged(m0, last);
    TaggedSizes(m0, h.blocks, h.index);
    RemoveAddrDistinct(h.index, last);
    var n := Fetch32(mem, header + 5);
    ghost var b := Block(header, n + ext, true);
    MakeBlock(mem, header, n + ext, true);
    GrowTagged(m0, mem[..], h.blocks, h.start, h.end, b);
    SizesBeside(m0, mem[..], h, RemoveAddr(h.index, header), b);
    ghost var m1 := mem[..];
    Reindex(index, mem, header, h.index, b);
    assert mem[..] == m1;
    ExpandOfHole(h, ext, b);
  }

  /** The last block is in use: append a NOT_HOLE block and put it into the index. */
  method AppendBlock(index: OA.OrderedArray, mem: array<Byte>, ext: nat, ghost h: Heap, end: nat)
    requires index.Valid() && index.slots.Length == CAP && Represents(mem[..], index.Items(), h)
    requires end == h.end && ext >= META && h.end + ext <= h.max && !h.blocks[|h.blocks| - 1].hole
    modifies mem, index`size, index.slots
    ensures index.Valid() && Addresses(index.Items(), Expand(h, ext).index)
    ensures AllTagged(mem[..], Expand(h, ext).blocks)
    ensures SameOutside(old(mem[..]), mem[..], end, end + ext)
  {
    ghost var m0 := mem[..];
    ghost var b := Block(end, ext - META, false);
    TaggedSizes(m0, h.blocks, h.index);
    MakeBlock(mem, end, ext - META, false);
    ghost var m1 := mem[..];
    AppendTagged(m0, m1, h, b);
    NotAtEnd(h);
    SizesBeside(m0, m1, h, h.index, b);
    InsertBySize(index, mem, end, h.index, b);
    assert mem[..] == m1;
  }

  // ---------------------------------------------------------------- carving

  /** make_block and ordered_array_insert for one new hole. */
  method AddHole(index: OA.OrderedArray, mem: array<Byte>, a: nat, size: nat, ghost es: seq<Block>)
    requires index.Valid() && index.slots.Length == CAP && Addresses(index.Items(), es) && SizesIn(mem[..], es)
    requires a + size + META <= mem.Length && a + size + META < WORD_MOD
    requires forall x :: x in es ==> x.End() <= a || a + size + META <= x.addr
    modifies mem, index`size, index.slots
    ensures var f := Block(a, size, true);
            && index.Valid() && Addresses(index.Items(), Insert(es, f)) && SizesIn(mem[..], Insert(es, f))
            && Tagged(mem[..], f) && SameOutside(old(mem[..]), mem[..], a, a + size + META)
  {
    ghost var f := Block(a, size, true);
    ghost var m0 := mem[..];
    MakeBlock(mem, a, size, true);
    ghost var m1 := mem[..];
    SizesOutside(m0, m1, es, a, f.End());
    InsertBySize(index, mem, a, es, f);
    assert mem[..] == m1;
    InsertSizes(m1, es, f);
  }

  /** The front block of an aligned request. */
  method CutFront(index: OA.OrderedArray, mem: array<Byte>, ghost b: Block, header: nat, pos: nat, ghost es: seq<Block>)
    requires index.Valid() && index.slots.Length == CAP && Addresses(index.Items(), es) && SizesIn(mem[..], es) && header == b.addr
    requires b.End() <= mem.Length && b.End() < WORD_MOD && b.Payload() <= pos <= b.Payload() + b.size
    requires pos == b.Payload() || pos - b.Payload() > META
    requires forall x :: x in es ==> x.End() <= b.addr || b.End() <= x.addr
    modifies mem, index`size, index.slots
    ensures var r := InsertAll(es, Front(b, pos));
            && index.Valid() && Addresses(index.Items(), r) && SizesIn(mem[..], r)
            && AllTagged(mem[..], Front(b, pos)) && SameOutside(old(mem[..]), mem[..], b.addr, pos - HEADER)
  {
    hide Addresses, SizesIn, Insert, InsertAll, Tagged;
    if pos - HEADER > header {
      var cut := pos - HEADER - header;
      assert cut > META;
      ghost var f := Block(header, cut - META, true);
      assert Front(b, pos) == [f];
      InsertAllSingle(es, f);
      AddHole(index, mem, header, cut - META, es);
    } else {
      assert Front(b, pos) == [];
      InsertAllNone(es);
    }
  }

  lemma InsertAllSingle(es: seq<Block>, f: Block)
    ensures InsertAll(es, [f]) == Insert(es, f)
  {
    assert [f][1..] == [];
    assert InsertAll(Insert(es, f), []) == Insert(es, f);
  }

  lemma InsertAllNone(es: seq<Block>)
    ensures InsertAll(es, []) == es
  {
  }

  /** The allocated block and the hole behind it. */
  method CutMiddleAndRest(index: OA.OrderedArray, mem: array<Byte>, ghost b: Block, pos: nat, size: nat, left: nat, ghost es: seq<Block>)
    requires index.Valid() && index.slots.Length == CAP && Addresses(index.Items(), es) && SizesIn(mem[..], es)
    requires b.End() <= mem.Length && b.End() < WORD_MOD && b.Payload() <= pos && pos + size <= b.Payload() + b.size
    requires left == b.Payload() + b.size - pos - size
    requires forall x :: x in es ==> x.End() <= pos - HEADER || b.End() <= x.addr
    modifies mem, index`size, index.slots
    ensures index.Valid() && Addresses(index.Items(), InsertAll(es, Rest(b, pos, size)))
    ensures Tagged(mem[..], Middle(b, pos, size)) && AllTagged(mem[..], Rest(b, pos, size))
    ensures SameOutside(old(mem[..]), mem[..], pos - HEADER, b.End())
  {
    hide InsertAll, Insert, Rest, Middle, Addresses, Tagged, SizesIn;
    ghost var m0, items := mem[..], index.Items();
    CutPieces(b, pos, size, es);
    ghost var mid := Middle(b, pos, size);
    MakeBlock(mem, pos - HEADER, if left <= META then size + left else size, false);
    ghost var m1 := mem[..];
    assert Tagged(m1, mid) && index.Items() == items;
    if left > META {
      ghost var t := Block(pos + size + FOOTER, left - META, true);
      SizesOutside(m0, m1, es, mid.addr, mid.End());
      AddHole(index, mem, pos + size + FOOTER, left - META, es);
      StillTagged(m1, mem[..], mid, t.addr, t.End());
    }
  }

  lemma CutPieces(b: Block, pos: nat, size: nat, es: seq<Block>)
    requires b.Payload() <= pos && pos + size <= b.Payload() + b.size
    ensures var left := b.Payload() + b.size - pos - size;
            && Middle(b, pos, size) == Block(pos - HEADER, if left <= META then size + left else size, false)
            && (left <= META ==> Rest(b, pos, size) == [] && InsertAll(es, Rest(b, pos, size)) == es)
            && (left > META ==> var t := Block(pos + size + FOOTER, left - META, true);
                                Rest(b, pos, size) == [t] && InsertAll(es, Rest(b, pos, size)) == Insert(es, t))
  {
    var left := b.Payload() + b.size - pos - size;
    if left > META {
      InsertAllOne(es, [Block(pos + size + FOOTER, left - META, true)]);
    }
  }

  lemma ExpandOfHole(h: Heap, ext: nat, b: Block)
    requires h.blocks != [] && h.blocks[|h.blocks| - 1].hole && ext >= META
    requires b == Block(h.blocks[|h.blocks| - 1].addr, h.blocks[|h.blocks| - 1].size + ext, true)
    ensures Expand(h, ext).blocks == h.blocks[..|h.blocks| - 1] + [b]
    ensures Expand(h, ext).index == Insert(RemoveAddr(h.index, b.addr), b)
  {
  }

  lemma GrowTagged(m: seq<Byte>, n: seq<Byte>, bs: seq<Block>, start: nat, end: nat, b: Block)
    requires Tiled(bs, start, end) && AllTagged(m, bs) && b.addr == bs[|bs| - 1].addr && Tagged(n, b)
    requires SameOutside(m, n, b.addr, b.End())
    ensures AllTagged(n, bs[..|bs| - 1] + [b])
  {
    var k := |bs| - 1;
    forall j | 0 <= j < k ensures Tagged(n, bs[j]) {
      AddrOrder(bs, start, end, j, k);
      StillTagged(m, n, bs[j], b.addr, b.End());
    }
  }

  lemma AppendTagged(m: seq<Byte>, n: seq<Byte>, h: Heap, b: Block)
    requires Tiled(h.blocks, h.start, h.end) && AllTagged(m, h.blocks) && b.addr == h.end && Tagged(n, b)
    requires SameOutside(m, n, b.addr, b.End())
    ensures AllTagged(n, h.blocks + [b])
  {
    forall j | 0 <= j < |h.blocks| ensures Tagged(n, h.blocks[j]) {
      InsideHeap(h, h.blocks[j]);
      StillTagged(m, n, h.blocks[j], b.addr, b.End());
    }
  }

  lemma NotAtEnd(h: Heap)
    requires Tiled(h.blocks, h.start, h.end) && Entries(h.index, h.blocks)
    ensures forall x :: x in h.index ==> x.addr != h.end
  {
    forall x | x in h.index ensures x.addr != h.end {
      InsideHeap(h, x);
    }
  }

  /** Entries other than the last block keep their sizes when the end of the heap is rewritten. */
  lemma SizesBeside(m: seq<Byte>, n: seq<Byte>, h: Heap, es: seq<Block>, b: Block)
    requires Tiled(h.blocks, h.start, h.end) && SizesIn(m, h.index) && Entries(h.index, h.blocks)
    requires SameOutside(m, n, b.addr, b.End())
    requires b.addr == h.end || b.addr == h.blocks[|h.blocks| - 1].addr
    requires forall x :: x in es ==> x in h.index && x.addr != b.addr
    ensures SizesIn(n, es)
  {
    forall x | x in es ensures x.End() <= b.addr && Sized(m, x) {
      assert x in h.blocks;
      InsideHeap(h, x);
      if b.addr != h.end {
        var j :| 0 <= j < |h.blocks| && h.blocks[j] == x;
        AddrOrder(h.blocks, h.start, h.end, j, |h.blocks| - 1);
      }
    }
    SizesOutside(m, n, es, b.addr, b.End());
  }

  lemma InsertedAt(es: seq<Block>, b: Block, p: nat)
    requires |es| < CAP && p <= |es| && (forall k :: 0 <= k < p ==> es[k].size <= b.size) && (p < |es| ==> es[p].size > b.size)
    ensures Insert(es, b) == es[..p] + [b] + es[p..]
  {
    InsertPosUnique(es, b.size, p);
  }

  lemma InsertPosUnique(es: seq<Block>, size: nat, p: nat)
    requires p <= |es| && (forall k :: 0 <= k < p ==> es[k].size <= size) && (p < |es| ==> es[p].size > size)
    ensures InsertPos(es, size, 0) == p
  {
  }

  lemma MirrorInsert(es: seq<Block>, items: seq<nat>, p: nat, b: Block)
    requires p <= |es| && Addresses(items, es)
    ensures Addresses(items[..p] + [b.addr] + items[p..], es[..p] + [b] + es[p..])
  {
  }

  ghost function SizesOf(es: seq<Block>): (ks: seq<nat>)
    ensures |ks| == |es| && forall i :: 0 <= i < |es| ==> ks[i] == es[i].size
  {
    seq(|es|, i requires 0 <= i < |es| => es[i].size)
  }

  lemma PosOfAddr(es: seq<Block>, items: seq<nat>, a: nat, found: bool, p: nat)
    requires |items| == |es| && forall i :: 0 <= i < |es| ==> items[i] == es[i].addr
    requires found == (a in items)
    requires found ==> p < |items| && items[p] == a && a !in items[..p]
    ensures found == (AddrPos(es, a, 0) < |es|) && (found ==> AddrPos(es, a, 0) == p)
  {
    if found {
      assert forall k :: 0 <= k < p ==> items[..p][k] == es[k].addr;
    } else {
      assert forall k :: 0 <= k < |es| ==> items[k] == es[k].addr;
    }
  }
}
