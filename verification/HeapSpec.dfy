/**
  The kernel heap (src/mem/kheap.c) as functions on values: the blocks that tile the heap
  in address order, and the index of free blocks ordered by size (src/utils/ordered_array.c).
 */
module HeapSpec {
  import opened Wrappers

  const HEADER: nat := 9         // packed magic, is_hole, size
  const FOOTER: nat := 8         // packed magic, header pointer
  const META: nat := 17
  const PAGE: nat := 4096
  const CAP: nat := 0x1000       // KHEAP_INDEX_NUM

  /** A block: address of its header, payload size, free or not. */
  datatype Block = Block(addr: nat, size: nat, hole: bool) {
    function End(): nat { addr + size + META }
    function Payload(): nat { addr + HEADER }
  }

  datatype Heap = Heap(start: nat, end: nat, max: nat, blocks: seq<Block>, index: seq<Block>)

  function AlignUp(n: nat): (r: nat)
    ensures r % PAGE == 0 && n <= r < n + PAGE
  {
    (n + PAGE - 1) / PAGE * PAGE
  }

  // ---------------------------------------------------------------- the ordered index

  /** The first position at or after i whose block is larger than `size`. */
  function InsertPos(ix: seq<Block>, size: nat, i: nat): (p: nat)
    requires i <= |ix|
    ensures i <= p <= |ix|
    ensures forall k :: i <= k < p ==> ix[k].size <= size
    ensures p < |ix| ==> ix[p].size > size
    decreases |ix| - i
  {
    if i < |ix| && ix[i].size <= size then InsertPos(ix, size, i + 1) else i
  }

  /** ordered_array_insert; a full array drops the item. */
  function Insert(ix: seq<Block>, b: Block): seq<Block> {
    if |ix| >= CAP then ix
    else
      var p := InsertPos(ix, b.size, 0);
      ix[..p] + [b] + ix[p..]
  }

  /** The first position at or after i whose block starts at a, or |ix|. */
  function AddrPos(ix: seq<Block>, a: nat, i: nat): (p: nat)
    requires i <= |ix|
    ensures i <= p <= |ix|
    ensures p < |ix| ==> ix[p].addr == a
    ensures forall k :: i <= k < p ==> ix[k].addr != a
    decreases |ix| - i
  {
    if i < |ix| && ix[i].addr != a then AddrPos(ix, a, i + 1) else i
  }

  function RemoveAt(ix: seq<Block>, i: nat): seq<Block>
    requires i < |ix|
  {
    ix[..i] + ix[i + 1..]
  }

  /** ordered_array_remove_element. */
  function RemoveAddr(ix: seq<Block>, a: nat): seq<Block> {
    var p := AddrPos(ix, a, 0);
    if p < |ix| then RemoveAt(ix, p) else ix
  }

  // ---------------------------------------------------------------- finding a hole

  /** The inner loop of kheap_find_hole: the first aligned position from p that leaves room for a front block. */
  function AlignedPos(start: nat, end: nat, size: nat, p: nat): (r: Option<nat>)
    requires start <= p
    decreases end - p
  {
    if p + size > end then None
    else if p - start == 0 || p - start > META then Some(p)
    else AlignedPos(start, end, size, p + PAGE)
  }

  /** Where a request fits in a block, if it does. */
  function Fit(b: Block, size: nat, align: bool): Option<nat> {
    var start := b.Payload();
    if align then AlignedPos(start, start + b.size, size, AlignUp(start))
    else if b.size >= size then Some(start)
    else None
  }

  /** kheap_find_hole from index position i: the first entry that fits, and the payload address. */
  function FindHole(ix: seq<Block>, size: nat, align: bool, i: nat): (r: Option<(nat, nat)>)
    requires i <= |ix|
    ensures r.Some? ==> i <= r.value.0 < |ix| && Fit(ix[r.value.0], size, align) == Some(r.value.1)
    ensures r.Some? ==> forall k :: i <= k < r.value.0 ==> Fit(ix[k], size, align) == None
    ensures r.None? ==> forall k :: i <= k < |ix| ==> Fit(ix[k], size, align) == None
    decreases |ix| - i
  {
    if i == |ix| then None
    else
      match Fit(ix[i], size, align)
      case Some(p) => Some((i, p))
      case None => FindHole(ix, size, align, i + 1)
  }

  // ---------------------------------------------------------------- alloc

  /** The block cut off in front of an aligned payload, if any. */
  function Front(b: Block, pos: nat): seq<Block> {
    if pos > b.Payload() && pos - b.Payload() > META then [Block(b.addr, pos - b.Payload() - META, true)] else []
  }

  /** The allocated block: it swallows a remainder too small to be a block. */
  function Middle(b: Block, pos: nat, size: nat): Block
    requires b.Payload() <= pos && pos + size <= b.Payload() + b.size
  {
    var left := b.Payload() + b.size - pos - size;
    Block(pos - HEADER, if left <= META then size + left else size, false)
  }

  function Rest(b: Block, pos: nat, size: nat): seq<Block>
    requires b.Payload() <= pos && pos + size <= b.Payload() + b.size
  {
    var left := b.Payload() + b.size - pos - size;
    if left <= META then [] else [Block(pos + size + FOOTER, left - META, true)]
  }

  function Split(b: Block, pos: nat, size: nat): seq<Block>
    requires b.Payload() <= pos && pos + size <= b.Payload() + b.size
  {
    Front(b, pos) + [Middle(b, pos, size)] + Rest(b, pos, size)
  }

  function InsertAll(ix: seq<Block>, bs: seq<Block>): seq<Block>
    decreases |bs|
  {
    if bs == [] then ix else InsertAll(Insert(ix, bs[0]), bs[1..])
  }

  /** Take `size` bytes at `pos` out of index entry i, which is block k. */
  function PlaceAt(h: Heap, i: nat, k: nat, pos: nat, size: nat): Heap
    requires i < |h.index| && k < |h.blocks|
    requires h.blocks[k].Payload() <= pos && pos + size <= h.blocks[k].Payload() + h.blocks[k].size
  {
    var b := h.blocks[k];
    h.(blocks := h.blocks[..k] + Split(b, pos, size) + h.blocks[k + 1..],
       index := InsertAll(RemoveAt(h.index, i), Front(b, pos) + Rest(b, pos, size)))
  }

  /** kheap_expand and the treatment of the last block. */
  function Expand(h: Heap, ext: nat): Heap
    requires h.blocks != [] && ext >= META
  {
    var last := h.blocks[|h.blocks| - 1];
    if last.hole then
      var b := Block(last.addr, last.size + ext, true);
      h.(end := h.end + ext,
         blocks := h.blocks[..|h.blocks| - 1] + [b],
         index := Insert(RemoveAddr(h.index, last.addr), b))
    else
      var b := Block(h.end, ext - META, false);
      h.(end := h.end + ext, blocks := h.blocks + [b], index := Insert(h.index, b))
  }

  /** The result of alloc: heap and payload address, the Assert of kheap_expand, or an index entry that is no block. */
  datatype Result = Got(heap: Heap, ptr: nat) | OutOfHeap | Corrupt

  /** The part of alloc after a hole has been found: index entry i, payload address pos. */
  function Take(h: Heap, i: nat, pos: nat, size: nat): Result
    requires i < |h.index|
  {
    var k := AddrPos(h.blocks, h.index[i].addr, 0);
    if k < |h.blocks| && h.blocks[k] == h.index[i]
       && h.index[i].Payload() <= pos && pos + size <= h.index[i].Payload() + h.index[i].size
    then Got(PlaceAt(h, i, k, pos, size), pos)
    else Corrupt
  }

  /** alloc; `size` excludes header and footer. */
  function Alloc(h: Heap, size: nat, align: bool): (r: Result)
    requires h.blocks != []
    decreases if h.end <= h.max then h.max - h.end else 0
  {
    match FindHole(h.index, size, align, 0)
    case Some((i, pos)) => Take(h, i, pos, size)
    case None =>
      var ext := AlignUp(size + META);
      if h.end + ext > h.max then OutOfHeap else Alloc(Expand(h, ext), size, align)
  }

  // ---------------------------------------------------------------- free

  /** The block left when block k is freed and its free neighbours are merged into it. */
  function Merged(blocks: seq<Block>, k: nat): (r: (nat, nat, Block))
    requires k < |blocks|
    ensures r.0 <= k < r.1 <= |blocks|
  {
    var lo := if k > 0 && blocks[k - 1].hole then k - 1 else k;
    var hi := if k + 1 < |blocks| && blocks[k + 1].hole then k + 2 else k + 1;
    var s1 := if hi == k + 2 then blocks[k].size + blocks[k + 1].size + META else blocks[k].size;
    var s2 := if lo < k then blocks[k - 1].size + s1 + META else s1;
    (lo, hi, Block(blocks[lo].addr, s2, true))
  }

  /** free of block k: following hole first, then the preceding one, then one insertion. */
  function Free(h: Heap, k: nat): Heap
    requires k < |h.blocks|
  {
    var (lo, hi, b) := Merged(h.blocks, k);
    var ix1 := if hi == k + 2 then RemoveAddr(h.index, h.blocks[k + 1].addr) else h.index;
    var ix2 := if lo < k then RemoveAddr(ix1, h.blocks[lo].addr) else ix1;
    h.(blocks := h.blocks[..lo] + [b] + h.blocks[hi..], index := Insert(ix2, b))
  }

  /** create_kheap: one hole over the whole range. */
  function Create(start: nat, end: nat, max: nat): Heap
    requires start + META <= end
  {
    var b := Block(start, end - start - META, true);
    Heap(start, end, max, [b], [b])
  }

  lemma {:induction false} AlignedBounds(start: nat, end: nat, size: nat, p: nat)
    requires start <= p
    ensures var r := AlignedPos(start, end, size, p);
            r.Some? ==> p <= r.value && r.value + size <= end && (r.value == start || r.value - start > META)
                        && r.value % PAGE == p % PAGE
    decreases end - p
  {
    if p + size <= end && p != start && p - start <= META {
      AlignedBounds(start, end, size, p + PAGE);
    }
  }

  /** A fitting position lies inside the payload; an aligned one is page aligned and can be cut free. */
  lemma FitBounds(b: Block, size: nat, align: bool, pos: nat)
    requires Fit(b, size, align) == Some(pos)
    ensures b.Payload() <= pos && pos + size <= b.Payload() + b.size
    ensures pos == b.Payload() || pos - b.Payload() > META
    ensures align ==> pos % PAGE == 0
    ensures !align ==> pos == b.Payload()
  {
    if align {
      AlignedBounds(b.Payload(), b.Payload() + b.size, size, AlignUp(b.Payload()));
    }
  }
}
