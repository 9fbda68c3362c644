/**
  The weaker invariant that also holds in the middle of an allocation, when a NOT_HOLE
  block may be in the index: every index entry is a block, and no address occurs twice.
 */
module HeapCoherent {
  import opened HeapSpec
  import opened HeapInv
  import opened HeapOps
  import opened HeapFree

  ghost predicate Distinct(es: seq<Block>) {
    forall i, j :: 0 <= i < j < |es| ==> es[i].addr != es[j].addr
  }

  ghost predicate Entries(es: seq<Block>, bs: seq<Block>) {
    forall x :: x in es ==> x in bs
  }

  ghost predicate Coherent(h: Heap) {
    Tiled(h.blocks, h.start, h.end) && Distinct(h.index) && Entries(h.index, h.blocks)
  }

  ghost predicate HolesIndexed(h: Heap) {
    forall b :: b in h.blocks && b.hole ==> b in h.index
  }

  // ---------------------------------------------------------------- index operations

  lemma InsertDistinct(es: seq<Block>, b: Block)
    requires Distinct(es) && forall x :: x in es ==> x.addr != b.addr
    ensures Distinct(Insert(es, b))
    ensures forall x :: x in Insert(es, b) ==> x in es || x == b
    ensures |es| < CAP ==> forall x :: x in es || x == b ==> x in Insert(es, b)
  {
    if |es| < CAP {
      InsertedDistinct(es, b, InsertPos(es, b.size, 0));
    }
  }

  lemma InsertedDistinct(es: seq<Block>, b: Block, p: nat)
    requires Distinct(es) && p <= |es| && forall x :: x in es ==> x.addr != b.addr
    ensures var r := es[..p] + [b] + es[p..]; Distinct(r) && forall x :: x in r <==> x in es || x == b
  {
    var r := es[..p] + [b] + es[p..];
    InsertedMembers(es, b, p);
    forall i, j | 0 <= i < j < |r| ensures r[i].addr != r[j].addr {
      assert r[i] == if i < p then es[i] else if i == p then b else es[i - 1];
      assert r[j] == if j < p then es[j] else if j == p then b else es[j - 1];
    }
  }

  lemma InsertedMembers(es: seq<Block>, b: Block, p: nat)
    requires p <= |es|
    ensures var r := es[..p] + [b] + es[p..]; forall x :: x in r <==> x in es || x == b
  {
    assert es == es[..p] + es[p..];
  }

  lemma RemoveDistinct(es: seq<Block>, i: nat)
    requires Distinct(es) && i < |es|
    ensures Distinct(RemoveAt(es, i))
    ensures forall x :: x in RemoveAt(es, i) <==> x in es && x != es[i]
    ensures forall x :: x in RemoveAt(es, i) ==> x.addr != es[i].addr
  {
    var r := RemoveAt(es, i);
    forall j | 0 <= j < |r| ensures r[j] == if j < i then es[j] else es[j + 1] {
    }
    forall x | x in es && x != es[i] ensures x in r {
      var j :| 0 <= j < |es| && es[j] == x;
      assert r[if j < i then j else j - 1] == x;
    }
  }

  lemma RemoveAddrDistinct(es: seq<Block>, b: Block)
    requires Distinct(es) && b in es
    ensures Distinct(RemoveAddr(es, b.addr)) && AddrPos(es, b.addr, 0) < |es|
    ensures forall x :: x in RemoveAddr(es, b.addr) <==> x in es && x != b
    ensures forall x :: x in RemoveAddr(es, b.addr) ==> x.addr != b.addr
    ensures |RemoveAddr(es, b.addr)| == |es| - 1
  {
    var p := AddrPos(es, b.addr, 0);
    var j :| 0 <= j < |es| && es[j] == b;
    assert p < |es| && p == j;
    RemoveDistinct(es, p);
  }

  // ---------------------------------------------------------------- blocks

  /** A block other than block k lies on one side of it. */
  lemma OtherSide(bs: seq<Block>, start: nat, end: nat, k: nat, x: Block)
    requires Tiled(bs, start, end) && k < |bs| && x in bs && x != bs[k]
    ensures x.End() <= bs[k].addr || bs[k].End() <= x.addr
  {
    var j :| 0 <= j < |bs| && bs[j] == x;
    if j < k {
      AddrOrder(bs, start, end, j, k);
    } else {
      AddrOrder(bs, start, end, k, j);
    }
  }

  lemma InSplice(bs: seq<Block>, lo: nat, hi: nat, mid: seq<Block>, x: Block)
    requires lo <= hi <= |bs|
    ensures x in bs[..lo] + mid + bs[hi..] <==> x in bs[..lo] || x in mid || x in bs[hi..]
  {
  }

  /** Replacing block k keeps every other block. */
  lemma OthersStay(bs: seq<Block>, start: nat, end: nat, k: nat, mid: seq<Block>, x: Block)
    requires Tiled(bs, start, end) && k < |bs| && x in bs && x != bs[k]
    ensures x in bs[..k] + mid + bs[k + 1..]
  {
    var j :| 0 <= j < |bs| && bs[j] == x;
    InSplice(bs, k, k + 1, mid, x);
    if j < k {
      assert bs[..k][j] == x;
    } else {
      assert bs[k + 1..][j - k - 1] == x;
    }
  }

  lemma {:induction false} HolesOnce(bs: seq<Block>, start: nat, end: nat, b: Block)
    requires Tiled(bs, start, end)
    ensures multiset(Holes(bs))[b] <= 1
    decreases |bs|
  {
    if |bs| == 1 {
      assert bs == [bs[0]];
    } else {
      var t := bs[1..];
      assert Tiled(t, t[0].addr, end);
      HolesOnce(t, t[0].addr, end, b);
      if bs[0].hole && b == bs[0] {
        assert b !in Holes(t) by {
          HolesMember(t, b);
          if b in t {
            var j :| 0 <= j < |t| && t[j] == b;
            AddrUnique(bs, start, end, 0, j + 1);
          }
        }
      }
      assert multiset(Holes(bs)) == multiset(if bs[0].hole then [bs[0]] else []) + multiset(Holes(t));
    }
  }

  lemma Twice<T>(s: seq<T>, i: nat, j: nat)
    requires i < j < |s| && s[i] == s[j]
    ensures multiset(s)[s[i]] >= 2
  {
    assert s == s[..j] + [s[j]] + s[j + 1..];
    assert s[i] == s[..j][i];
    assert s[i] in multiset(s[..j]);
  }

  lemma DistinctEntries(h: Heap, i: nat, j: nat)
    requires WF(h) && i < j < |h.index|
    ensures h.index[i].addr != h.index[j].addr
  {
    if h.index[i].addr == h.index[j].addr {
      InIndex(h, h.index[i]);
      var k :| 0 <= k < |h.blocks| && h.blocks[k] == h.index[i];
      HoleUnique(h, k, h.index[j]);
      Twice(h.index, i, j);
      HolesOnce(h.blocks, h.start, h.end, h.index[i]);
    }
  }

  lemma WFIsCoherent(h: Heap)
    requires WF(h)
    ensures Coherent(h) && HolesIndexed(h)
  {
    forall x ensures x in h.index <==> x in h.blocks && x.hole {
      InIndex(h, x);
    }
    forall i, j | 0 <= i < j < |h.index| ensures h.index[i].addr != h.index[j].addr {
      DistinctEntries(h, i, j);
    }
  }

  // ---------------------------------------------------------------- alloc

  lemma InsertAllOne(es: seq<Block>, f: seq<Block>)
    requires |f| == 1
    ensures InsertAll(es, f) == Insert(es, f[0])
  {
    assert f[1..] == [];
  }

  /** The two new holes of a split do not collide with the entries that stay. */
  lemma InsertTwo(es: seq<Block>, b: Block, pos: nat, size: nat)
    requires Distinct(es) && b.Payload() <= pos && pos + size <= b.Payload() + b.size
    requires forall x :: x in es ==> x.End() <= b.addr || b.End() <= x.addr
    ensures var r := InsertAll(es, Front(b, pos) + Rest(b, pos, size));
            Distinct(r) && forall x :: x in r ==> x in es || x in Split(b, pos, size)
  {
    var f, t := Front(b, pos), Rest(b, pos, size);
    var es1 := InsertAll(es, f);
    if f != [] {
      InsertAllOne(es, f);
      InsertDistinct(es, f[0]);
    }
    assert InsertAll(es, f + t) == InsertAll(es1, t) by {
      if f != [] {
        assert (f + t)[0] == f[0] && (f + t)[1..] == t;
      } else {
        assert f + t == t;
      }
    }
    if t != [] {
      InsertAllOne(es1, t);
      InsertDistinct(es1, t[0]);
    }
  }

  /** Taking an index entry that fits leaves a coherent heap. */
  lemma TakeCoherent(h: Heap, i: nat, pos: nat, size: nat)
    requires Coherent(h) && i < |h.index| && size > 0
    requires h.index[i].Payload() <= pos && pos + size <= h.index[i].Payload() + h.index[i].size
    requires pos == h.index[i].Payload() || pos - h.index[i].Payload() > META
    ensures var k := AddrPos(h.blocks, h.index[i].addr, 0);
            && k < |h.blocks| && h.blocks[k] == h.index[i]
            && Take(h, i, pos, size) == Got(PlaceAt(h, i, k, pos, size), pos)
            && Coherent(PlaceAt(h, i, k, pos, size))
  {
    var b := h.index[i];
    assert b in h.blocks;
    var k :| 0 <= k < |h.blocks| && h.blocks[k] == b;
    AddrFinds(h.blocks, h.start, h.end, k);
    PlaceCoherent(h, i, k, pos, size);
  }

  lemma PlaceCoherent(h: Heap, i: nat, k: nat, pos: nat, size: nat)
    requires Coherent(h) && i < |h.index| && size > 0 && k < |h.blocks| && h.blocks[k] == h.index[i]
    requires h.index[i].Payload() <= pos && pos + size <= h.index[i].Payload() + h.index[i].size
    requires pos == h.index[i].Payload() || pos - h.index[i].Payload() > META
    ensures Coherent(PlaceAt(h, i, k, pos, size))
  {
    var b := h.blocks[k];
    var n := PlaceAt(h, i, k, pos, size);
    assert Tiled(n.blocks, n.start, n.end) by {
      SplitFills(b, pos, size);
      SpliceTiled(h.blocks, h.start, h.end, k, k + 1, Split(b, pos, size));
    }
    var es := RemoveAt(h.index, i);
    RemoveDistinct(h.index, i);
    forall x | x in es ensures x in h.blocks && x != b && (x.End() <= b.addr || b.End() <= x.addr) {
      OtherSide(h.blocks, h.start, h.end, k, x);
    }
    InsertTwo(es, b, pos, size);
    forall x | x in n.index ensures x in n.blocks {
      if x in es {
        OthersStay(h.blocks, h.start, h.end, k, Split(b, pos, size), x);
      } else {
        InSplice(h.blocks, k, k + 1, Split(b, pos, size), x);
      }
    }
  }

  /** Expansion leaves a coherent heap with every hole indexed. */
  lemma ExpandCoherent(h: Heap, ext: nat)
    requires Coherent(h) && HolesIndexed(h) && |h.index| <= CAP && ext >= META
    ensures Coherent(Expand(h, ext)) && HolesIndexed(Expand(h, ext))
  {
    if h.blocks[|h.blocks| - 1].hole {
      GrowCoherent(h, ext);
    } else {
      StrayCoherent(h, ext);
    }
  }

  lemma StrayCoherent(h: Heap, ext: nat)
    requires Coherent(h) && HolesIndexed(h) && ext >= META && !h.blocks[|h.blocks| - 1].hole && |h.index| <= CAP
    ensures Coherent(Expand(h, ext)) && HolesIndexed(Expand(h, ext))
  {
    var b := Block(h.end, ext - META, false);
    var n := Expand(h, ext);
    assert n.blocks == h.blocks + [b] && n.index == Insert(h.index, b) && n.end == b.End() && n.start == h.start;
    forall x | x in h.index ensures x.addr != b.addr {
      InsideHeap(h, x);
    }
    InsertDistinct(h.index, b);
  }

  lemma InsideHeap(h: Heap, x: Block)
    requires Tiled(h.blocks, h.start, h.end) && x in h.blocks
    ensures x.End() <= h.end
  {
    var j :| 0 <= j < |h.blocks| && h.blocks[j] == x;
    if j < |h.blocks| - 1 {
      AddrOrder(h.blocks, h.start, h.end, j, |h.blocks| - 1);
    }
  }

  lemma NotLast(h: Heap, x: Block)
    requires Tiled(h.blocks, h.start, h.end)
    ensures x in h.blocks[..|h.blocks| - 1] <==> x in h.blocks && x != h.blocks[|h.blocks| - 1]
  {
    var k := |h.blocks| - 1;
    assert h.blocks == h.blocks[..k] + [h.blocks[k]];
    if x in h.blocks[..k] {
      var j :| 0 <= j < k && h.blocks[j] == x;
      AddrOrder(h.blocks, h.start, h.end, j, k);
    }
  }

  lemma GrownIndex(es: seq<Block>, last: Block, b: Block)
    requires Distinct(es) && last in es && |es| <= CAP && b.addr == last.addr
    ensures var r := Insert(RemoveAddr(es, last.addr), b);
            Distinct(r) && forall x :: x in r <==> x == b || (x in es && x != last)
  {
    RemoveAddrDistinct(es, last);
    InsertDistinct(RemoveAddr(es, last.addr), b);
  }

  lemma GrowCoherent(h: Heap, ext: nat)
    requires Coherent(h) && HolesIndexed(h) && |h.index| <= CAP && ext >= META && h.blocks[|h.blocks| - 1].hole
    ensures Coherent(Expand(h, ext)) && HolesIndexed(Expand(h, ext))
  {
    var k := |h.blocks| - 1;
    var l, last := h.blocks[..k], h.blocks[k];
    var b := Block(last.addr, last.size + ext, true);
    var n := Expand(h, ext);
    assert n.blocks == l + [b] && n.index == Insert(RemoveAddr(h.index, last.addr), b) && n.end == b.End() && n.start == h.start;
    assert Tiled(n.blocks, n.start, n.end);
    GrownIndex(h.index, last, b);
    forall x ensures x in l <==> x in h.blocks && x != last {
      NotLast(h, x);
    }
  }

  // ---------------------------------------------------------------- free

  lemma WithoutNext(h: Heap, k: nat, ix: seq<Block>)
    requires Coherent(h) && HolesIndexed(h) && k < |h.blocks|
    requires ix == if k + 1 < |h.blocks| && h.blocks[k + 1].hole then RemoveAddr(h.index, h.blocks[k + 1].addr) else h.index
    ensures Distinct(ix) && forall x :: x in ix ==> x in h.index
    ensures k + 1 < |h.blocks| && h.blocks[k + 1].hole ==> h.blocks[k + 1] !in ix
    ensures k > 0 && h.blocks[k - 1].hole ==> h.blocks[k - 1] in ix
  {
    if k + 1 < |h.blocks| && h.blocks[k + 1].hole {
      RemoveAddrDistinct(h.index, h.blocks[k + 1]);
      if k > 0 {
        AddrOrder(h.blocks, h.start, h.end, k - 1, k + 1);
      }
    }
  }

  lemma PrunedEntries(h: Heap, k: nat)
    requires Coherent(h) && HolesIndexed(h) && k < |h.blocks| && h.blocks[k] !in h.index
    ensures Distinct(Pruned(h, k))
    ensures forall x :: x in Pruned(h, k) ==> x in h.index
    ensures var (lo, hi, _) := Merged(h.blocks, k);
            forall j :: lo <= j < hi ==> h.blocks[j] !in Pruned(h, k)
  {
    var ix := if k + 1 < |h.blocks| && h.blocks[k + 1].hole then RemoveAddr(h.index, h.blocks[k + 1].addr) else h.index;
    hide RemoveAddr, Coherent, HolesIndexed, Distinct;
    WithoutNext(h, k, ix);
    if k > 0 && h.blocks[k - 1].hole {
      RemoveAddrDistinct(ix, h.blocks[k - 1]);
    }
  }

  lemma BeyondMerge(h: Heap, lo: nat, hi: nat, x: Block)
    requires Tiled(h.blocks, h.start, h.end) && lo < hi <= |h.blocks| && x in h.blocks
    requires forall j :: lo <= j < hi ==> x != h.blocks[j]
    ensures x in h.blocks[..lo] || x in h.blocks[hi..]
    ensures x.addr != h.blocks[lo].addr
  {
    var j :| 0 <= j < |h.blocks| && h.blocks[j] == x;
    if j < lo {
      assert h.blocks[..lo][j] == x;
    } else {
      assert h.blocks[hi..][j - hi] == x;
    }
    if x.addr == h.blocks[lo].addr {
      AddrUnique(h.blocks, h.start, h.end, j, lo);
    }
  }

  lemma MergedTiled(h: Heap, k: nat)
    requires Tiled(h.blocks, h.start, h.end) && k < |h.blocks|
    ensures Tiled(Free(h, k).blocks, h.start, h.end)
  {
    var (lo, hi, b) := Merged(h.blocks, k);
    assert Tiled([b], h.blocks[lo].addr, h.blocks[hi - 1].End());
    SpliceTiled(h.blocks, h.start, h.end, lo, hi, [b]);
  }

  lemma FreeCoherent(h: Heap, k: nat)
    requires Coherent(h) && HolesIndexed(h) && k < |h.blocks| && h.blocks[k] !in h.index
    ensures Coherent(Free(h, k))
  {
    var (lo, hi, b) := Merged(h.blocks, k);
    var es := Pruned(h, k);
    var n := Free(h, k);
    assert n.index == Insert(es, b) && n.blocks == h.blocks[..lo] + [b] + h.blocks[hi..];
    MergedTiled(h, k);
    PrunedEntries(h, k);
    forall x | x in es ensures x.addr != b.addr && x in n.blocks {
      BeyondMerge(h, lo, hi, x);
      InSplice(h.blocks, lo, hi, [b], x);
    }
    InsertDistinct(es, b);
    InSplice(h.blocks, lo, hi, [b], b);
  }
}
