/** kheap_t: the object that kmalloc, kmalloc_align and kfree work on. */
module KernelHeap {
  import opened Wrappers
  import opened Bytes
  import opened HeapSpec
  import opened HeapInv
  import opened HeapMalloc
  import opened HeapFree
  import opened HeapCoherent
  import opened HeapCode
  import opened HeapAlloc
  import opened HeapKfree
  import HeapRun
  import OA = OrderedArray

  lemma NoEntries(m: seq<Byte>, items: seq<nat>, b: Block)
    requires items == [] && Tagged(m, b)
    ensures Addresses(items, []) && SizesIn(m, []) && Sized(m, b)
  {
  }

  /** A caller's writes into the payload of one of its live blocks disturb nothing of the heap's own. */
  lemma PayloadWrite(m: seq<Byte>, n: seq<Byte>, items: seq<nat>, h: Heap, b: Block)
    requires Represents(m, items, h) && b in LiveSet(h.blocks) && SameOutside(m, n, b.Payload(), b.Payload() + b.size)
    ensures Represents(n, items, h)
  {
    var i :| 0 <= i < |h.blocks| && h.blocks[i] == b;
    forall k | 0 <= k < |h.blocks| ensures Tagged(n, h.blocks[k]) {
      assert Tagged(m, h.blocks[k]);
      if k == i {
        OwnTags(m, n, b);
      } else if k < i {
        AddrOrder(h.blocks, h.start, h.end, k, i);
        StillTagged(m, n, h.blocks[k], b.Payload(), b.Payload() + b.size);
      } else {
        AddrOrder(h.blocks, h.start, h.end, i, k);
        StillTagged(m, n, h.blocks[k], b.Payload(), b.Payload() + b.size);
      }
    }
  }

  lemma OwnTags(m: seq<Byte>, n: seq<Byte>, b: Block)
    requires Tagged(m, b) && SameOutside(m, n, b.Payload(), b.Payload() + b.size)
    ensures Tagged(n, b)
  {
    var foot := b.addr + HEADER + b.size;
    assert Load32(n, b.addr) == Load32(m, b.addr) && Load32(n, b.addr + 5) == Load32(m, b.addr + 5);
    assert Load32(n, foot) == Load32(m, foot) && Load32(n, foot + 4) == Load32(m, foot + 4);
  }

  lemma FreeBounds(h: Heap, k: nat)
    requires k < |h.blocks|
    ensures var n := HeapSpec.Free(h, k); n.start == h.start && n.end == h.end && n.max == h.max
  {
  }

  class KHeap {
    const mem: array<Byte>
    const index: OA.OrderedArray
    const start: nat
    const max: nat
    var end: nat
    ghost var model: Heap

    ghost predicate Valid()
      reads this, mem, index, index.slots
    {
      && index.Valid() && index.slots.Length == CAP
      && model.start == start && model.end == end && model.max == max
      && Represents(mem[..], index.Items(), model)
    }

    /** create_kheap: the index array first, then one hole up to e. */
    constructor (from: nat, e: nat, limit: nat)
      requires from % PAGE == 0 && e % PAGE == 0 && from + 4 * CAP + META <= e <= limit < WORD_MOD
      ensures Valid() && model == Create(from + 4 * CAP, e, limit)
      ensures fresh(mem) && fresh(index) && fresh(index.slots)
    {
      hide Represents, Tagged, OnlyTags, Insert, Addresses, SizesIn, Sized, SameOutside;
      var first := from + 4 * CAP;
      var m := new Byte[limit](_ => 0);
      var ix := new OA.OrderedArray(CAP);
      MakeBlock(m, first, e - first - META, true);
      ghost var m1 := m[..];
      NoEntries(m1, ix.Items(), Block(first, e - first - META, true));
      InsertBySize(ix, m, first, [], Block(first, e - first - META, true));
      assert m[..] == m1;
      mem, index, start, end, max := m, ix, first, e, limit;
      model := Create(first, e, limit);
      CreateRepresents(m1, ix.Items(), first, e, limit);
    }

    /** A caller stores a byte into memory it was given. */
    method StorePayload(a: nat, v: Byte, ghost b: Block)
      requires Valid() && b in LiveSet(model.blocks) && b.Payload() <= a < b.Payload() + b.size && a < mem.Length
      modifies mem
      ensures Valid() && mem[..] == old(mem[..])[a := v]
    {
      hide Represents;
      ghost var m := mem[..];
      mem[a] := v;
      assert mem[..] == m[a := v];
      PayloadWrite(m, mem[..], index.Items(), model, b);
    }

    /** alloc on this heap: the payload address, or None where kheap_expand asserts. */
    method Alloc(size: nat, align: bool) returns (r: Option<nat>)
      requires Valid() && HolesIndexed(model) && size > 0
      modifies this`end, this`model, mem, index`size, index.slots
      ensures match HeapSpec.Alloc(old(model), size, align)
              case Got(n, p) => r == Some(p) && Valid() && model == n && PayloadsKept(old(mem[..]), mem[..], old(model))
              case OutOfHeap => r == None
              case Corrupt => false
    {
      ghost var h := model;
      var newEnd;
      r, newEnd := AllocIn(index, mem, end, max, size, align, h);
      if r.Some? {
        end := newEnd;
        model := HeapSpec.Alloc(h, size, align).heap;
      }
    }

    /** free on this heap, of the live block k. */
    method Free(addr: nat, ghost k: nat)
      requires Valid() && HolesIndexed(model) && k < |model.blocks| && model.blocks[k] !in model.index
      requires addr == model.blocks[k].Payload()
      modifies this`model, mem, index`size, index.slots
      ensures Valid() && model == HeapSpec.Free(old(model), k) && OthersKept(old(mem[..]), mem[..], old(model), k)
    {
      hide Represents, HolesIndexed, HeapSpec.Free, OthersKept;
      ghost var h := model;
      FreeIn(index, mem, start, end, addr, h, k);
      model := HeapSpec.Free(h, k);
      FreeBounds(h, k);
    }

    /** kmalloc and kmalloc_align: None stands for the NULL of size 0 and for the panic of a full heap. */
    method Kmalloc(size: nat, align: bool) returns (r: Option<nat>)
      requires Valid() && WF(model) && |model.index| + 2 <= CAP
      modifies this`end, this`model, mem, index`size, index.slots
      ensures r.Some? ==> && Valid() && WF(model) && Served(old(model), model, r.value, size)
                          && (align ==> r.value % PAGE == 0)
                          && PayloadsKept(old(mem[..]), mem[..], old(model))
      ensures size == 0 ==> r == None && model == old(model)
      ensures size > 0 && !align ==> (r == None <==> !Room(old(model), size, false) && old(model).end + AlignUp(size + META) > max)
      ensures size > 0 && Room(old(model), size, align) ==> r.Some? && model.end == old(model).end && PlacedBest(old(model), size, align, r.value)
      ensures size > 0 && align && !Room(old(model), size, align) ==>
                if UsedTail(old(model)) then r.Some? <==> AlignUp(size + META) >= size + PAGE + FOOTER && old(model).end + AlignUp(size + META) <= max
                else old(model).end + 2 * AlignUp(size + META) <= max ==> r.Some?
    {
      if size == 0 {
        return None;
      }
      ghost var h := model;
      WFIsCoherent(h);
      r := Alloc(size, align);
      if Room(h, size, align) {
        HeapMalloc.BestFit(h, size, align);
      }
      if align {
        HeapRun.KmallocAlign(h, size);
        AlignedWithoutRoom(h, size);
      } else {
        HeapMalloc.Kmalloc(h, size);
      }
    }

    /** kfree of a pointer that kmalloc returned and that has not been freed since. */
    method Kfree(ptr: nat)
      requires Valid() && WF(model) && |model.index| < CAP
      requires ptr != 0 ==> exists b :: b in LiveSet(model.blocks) && b.Payload() == ptr
      modifies this`model, mem, index`size, index.slots
      ensures Valid() && WF(model)
      ensures ptr == 0 ==> model == old(model)
      ensures ptr != 0 ==> exists k :: 0 <= k < |old(model).blocks| && old(model).blocks[k].Payload() == ptr
                                       && LiveSet(model.blocks) == LiveSet(old(model).blocks) - {old(model).blocks[k]}
                                       && OthersKept(old(mem[..]), mem[..], old(model), k)
    {
      if ptr == 0 {
        return;
      }
      ghost var h := model;
      ghost var b :| b in LiveSet(h.blocks) && b.Payload() == ptr;
      ghost var k :| 0 <= k < |h.blocks| && h.blocks[k] == b;
      WFIsCoherent(h);
      InIndex(h, b);
      Free(ptr, k);
      HeapFree.Kfree(h, k);
    }
  }
}
