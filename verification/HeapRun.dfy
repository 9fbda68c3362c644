/** Whole runs of kmalloc, kmalloc_align and kfree from the heap that init_kheap creates. */
module HeapRun {
  import opened Wrappers
  import opened HeapSpec
  import opened HeapInv
  import opened HeapOps
  import opened HeapMalloc
  import opened HeapFree

  const KHEAP_START: nat := 0xC0C00000
  const KHEAP_MIN_SIZE: nat := 0x10000
  const KHEAP_MAX: nat := 0xE0000000

  /** init_kheap: the index array takes the first CAP words. */
  function Init(): Heap { Create(KHEAP_START + 4 * CAP, KHEAP_START + KHEAP_MIN_SIZE, KHEAP_MAX) }

  lemma InitWF()
    ensures WF(Init()) && LiveSet(Init().blocks) == {}
  {
    OneHole(Init().blocks[0]);
  }

  /** kmalloc_align, wherever it succeeds: structure kept, one new live block, page aligned. */
  lemma {:induction false} KmallocAlign(h: Heap, size: nat)
    requires WF(h) && |h.index| + 2 <= CAP && size > 0
    ensures var r := Alloc(h, size, true);
            !r.Corrupt? && (r.Got? ==> WF(r.heap) && Served(h, r.heap, r.ptr, size) && r.ptr % PAGE == 0)
    ensures Room(h, size, true) ==> Alloc(h, size, true).Got?
    decreases h.max - h.end
  {
    FoundIffRoom(h, size, true);
    if FindHole(h.index, size, true, 0).Some? {
      FoundServes(h, size, true);
    } else if !h.blocks[|h.blocks| - 1].hole {
      AlignOnUsedTail(h, size);
    } else if h.end + AlignUp(size + META) <= h.max {
      var ext := AlignUp(size + META);
      ExpandKeeps(h, ext);
      GrowLive(h, ext);
      var e := Expand(h, ext);
      KmallocAlign(e, size);
      if Alloc(e, size, true).Got? {
        ServedAfterGrowth(h, e, Alloc(e, size, true).heap, Alloc(e, size, true).ptr, size);
      }
    }
  }

  datatype Op = Malloc(size: nat, align: bool) | MFree(ptr: nat)

  /** One call; None when it panics, frees what is not live, or the index may overflow. */
  function Step(h: Heap, op: Op): Option<Heap>
    requires h.blocks != []
  {
    if |h.index| + 2 > CAP then None
    else match op
      case Malloc(size, align) =>
        if size == 0 then Some(h)
        else (match Alloc(h, size, align) case Got(n, _) => Some(n) case _ => None)
      case MFree(ptr) =>
        if ptr == 0 then Some(h)
        else
          var k := if ptr >= HEADER then AddrPos(h.blocks, ptr - HEADER, 0) else |h.blocks|;
          if k < |h.blocks| && !h.blocks[k].hole then Some(Free(h, k)) else None
  }

  lemma StepKeeps(h: Heap, op: Op)
    requires WF(h) && Step(h, op).Some?
    ensures WF(Step(h, op).value)
  {
    match op
    case Malloc(size, align) =>
      if size > 0 {
        if align {
          KmallocAlign(h, size);
        } else {
          Kmalloc(h, size);
        }
      }
    case MFree(ptr) =>
      if ptr != 0 {
        Kfree(h, AddrPos(h.blocks, ptr - HEADER, 0));
      }
  }

  ghost function Run(h: Heap, ops: seq<Op>): (r: Option<Heap>)
    requires WF(h)
    ensures r.Some? ==> WF(r.value)
    decreases |ops|
  {
    if ops == [] then Some(h)
    else
      match Step(h, ops[0])
      case None => None
      case Some(n) => StepKeeps(h, ops[0]); Run(n, ops[1..])
  }

  /** After any run that has freed everything it allocated, in any order, one hole spans the heap. */
  lemma RunCoalesces(ops: seq<Op>)
    ensures WF(Init())
    ensures Run(Init(), ops).Some? && LiveSet(Run(Init(), ops).value.blocks) == {} ==>
              var h := Run(Init(), ops).value;
              h.start + META < h.end && h.index == h.blocks == [Block(h.start, h.end - h.start - META, true)]
  {
    InitWF();
    if Run(Init(), ops).Some? && LiveSet(Run(Init(), ops).value.blocks) == {} {
      AllFreed(Run(Init(), ops).value);
    }
  }
}
