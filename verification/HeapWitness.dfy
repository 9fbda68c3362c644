/** Inputs on which the heap code fails: an aligned request that panics, and a free that loses its hole. */
module HeapWitness {
  import opened Wrappers
  import opened HeapSpec
  import opened HeapInv
  import opened HeapMalloc
  import opened HeapFree
  import opened HeapRun

  // ---------------------------------------------------------------- an aligned request

  const WHOLE: nat := 0xC000 - META      // the payload of the first hole

  /** The heap once its only hole has been handed out. */
  ghost function AllUsed(): Heap {
    var h := Init();
    Heap(h.start, h.end, h.max, [Block(h.start, WHOLE, false)], [])
  }

  lemma TakesAll()
    ensures Step(Init(), Malloc(WHOLE, false)) == Some(AllUsed())
  {
    var h := Init();
    var b := h.blocks[0];
    assert b == Block(h.start, WHOLE, true);
    assert Fit(b, WHOLE, false) == Some(b.Payload());
    assert FindHole(h.index, WHOLE, false, 0) == Some((0, b.Payload()));
    assert AddrPos(h.blocks, b.addr, 0) == 0;
    var n := PlaceAt(h, 0, 0, b.Payload(), WHOLE);
    assert n.blocks == [Block(h.start, WHOLE, false)];
    assert n.index == [];
  }

  /** From boot: kmalloc of the whole first hole succeeds, and then a 64-byte kmalloc_align panics with 496 MB of heap left. */
  lemma AlignPanicsExample()
    ensures Step(Init(), Malloc(WHOLE, false)) == Some(AllUsed())
    ensures Step(AllUsed(), Malloc(64, true)) == None
    ensures AllUsed().end + 0x1F000000 < AllUsed().max
  {
    TakesAll();
    var h := AllUsed();
    assert Holes(h.blocks) == [];
    AlignPanics(h, 64);
  }

  // ---------------------------------------------------------------- a full index

  /** 2 n one-byte blocks from a on, free and used in turn. */
  function Comb(a: nat, n: nat): (bs: seq<Block>) {
    seq(2 * n, i requires 0 <= i < 2 * n => Block(a + 18 * i, 1, i % 2 == 0))
  }

  lemma HolesOfTwo(x: Block, y: Block)
    ensures Holes([x, y]) == (if x.hole then [x] else []) + (if y.hole then [y] else [])
  {
    assert [x, y][1..] == [y] && [y][1..] == [];
    assert Holes([y]) == (if y.hole then [y] else []) + Holes([]);
  }

  lemma {:induction false} CombHoles(a: nat, n: nat)
    ensures |Holes(Comb(a, n))| == n && forall b :: b in Holes(Comb(a, n)) ==> b.size == 1
  {
    if n > 0 {
      var x, y := Block(a + 36 * (n - 1), 1, true), Block(a + 36 * (n - 1) + 18, 1, false);
      assert Comb(a, n) == Comb(a, n - 1) + [x, y];
      HolesConcat(Comb(a, n - 1), [x, y]);
      HolesOfTwo(x, y);
      CombHoles(a, n - 1);
    }
  }

  /** CAP holes between used blocks, and two more used blocks up to the page end. */
  ghost function Combed(): Heap {
    var s := Init().start;
    var blocks := Comb(s, CAP) + [Block(s + 36 * CAP, 1, false), Block(s + 36 * CAP + 18, PAGE - 35, false)];
    Heap(s, s + 36 * CAP + PAGE, KHEAP_MAX, blocks, Holes(blocks))
  }

  lemma CombedTiled()
    ensures var h := Combed(); Tiled(h.blocks, h.start, h.end) && NonEmpty(h.blocks) && NoTwoHoles(h.blocks) && |h.blocks| == 2 * CAP + 2
    ensures var h, k := Combed(), 2 * CAP; !h.blocks[k - 1].hole && !h.blocks[k].hole && !h.blocks[k + 1].hole
  {
    hide Init, Holes;
  }

  lemma CombedIndex()
    ensures var h := Combed(); |h.index| == CAP && forall b :: b in h.index ==> b.size == 1
  {
    hide Init;
    var h := Combed();
    var x, y := Block(h.start + 36 * CAP, 1, false), Block(h.start + 36 * CAP + 18, PAGE - 35, false);
    HolesConcat(Comb(h.start, CAP), [x, y]);
    HolesOfTwo(x, y);
    CombHoles(h.start, CAP);
  }

  lemma EvenlySorted(ix: seq<Block>)
    requires forall b :: b in ix ==> b.size == 1
    ensures Sorted(ix)
  {
    assert forall i :: 0 <= i < |ix| ==> ix[i] in ix;
  }

  lemma CombedWF()
    ensures WF(Combed()) && |Combed().index| == CAP
  {
    CombedTiled();
    CombedIndex();
    EvenlySorted(Combed().index);
    CombedEnd();
    hide Tiled, NonEmpty, NoTwoHoles, Sorted, Init;
  }

  lemma CombedEnd()
    ensures Combed().end % PAGE == 0 && Combed().end <= Combed().max && Combed().index == Holes(Combed().blocks)
  {
    assert Combed().end == 0xC0C04000 + 37 * PAGE;
  }

  /** Freeing block k between used neighbours with a full index changes the block's tag and nothing else. */
  lemma FreeLoses(h: Heap, k: nat)
    requires 0 < k < |h.blocks| - 1 && !h.blocks[k - 1].hole && !h.blocks[k].hole && !h.blocks[k + 1].hole && |h.index| >= CAP
    ensures Swallowed(h.blocks, k) == multiset{}
    ensures Free(h, k) == h.(blocks := h.blocks[k := h.blocks[k].(hole := true)])
  {
    assert h.blocks[..k] + [h.blocks[k].(hole := true)] + h.blocks[k + 1..] == h.blocks[k := h.blocks[k].(hole := true)];
  }

  lemma NotRecorded(h: Heap, k: nat)
    requires WF(h) && k < |h.blocks| && !h.blocks[k].hole
    ensures h.blocks[k].(hole := true) !in h.index
  {
    var b := h.blocks[k].(hole := true);
    InIndex(h, b);
    if b in h.blocks {
      var i :| 0 <= i < |h.blocks| && h.blocks[i] == b;
      AddrUnique(h.blocks, h.start, h.end, i, k);
    }
  }

  /** A well-formed heap on which freeing a live block between live neighbours leaves a hole that no index entry records. */
  lemma FullIndexLosesHole()
    ensures var h, k := Combed(), 2 * CAP;
      && WF(h) && |h.index| == CAP && k + 1 < |h.blocks| && !h.blocks[k - 1].hole && !h.blocks[k].hole && !h.blocks[k + 1].hole
      && !WF(Free(h, k)) && Free(h, k) == h.(blocks := h.blocks[k := h.blocks[k].(hole := true)])
      && h.blocks[k].(hole := true) !in Free(h, k).index
  {
    hide Combed, WF, Free, Holes, Swallowed;
    var h, k := Combed(), 2 * CAP;
    CombedTiled();
    CombedWF();
    FreeLoses(h, k);
    KfreeKeepsIff(h, k);
    NotRecorded(h, k);
  }
}
