/** The structure of the kernel heap and the lemmas that keep it. */
module HeapInv {
  import opened HeapSpec

  /** Each block ends where the next one starts; together they fill start..end. */
  ghost predicate Tiled(bs: seq<Block>, start: nat, end: nat) {
    && bs != []
    && bs[0].addr == start && bs[|bs| - 1].End() == end
    && forall i :: 0 <= i < |bs| - 1 ==> bs[i].End() == bs[i + 1].addr
  }

  ghost predicate NoTwoHoles(bs: seq<Block>) {
    forall i :: 0 <= i < |bs| - 1 ==> !(bs[i].hole && bs[i + 1].hole)
  }

  ghost predicate Sorted(ix: seq<Block>) {
    forall i, j :: 0 <= i < j < |ix| ==> ix[i].size <= ix[j].size
  }

  ghost predicate NonEmpty(bs: seq<Block>) {
    forall i :: 0 <= i < |bs| ==> bs[i].size > 0
  }

  function Holes(bs: seq<Block>): seq<Block> {
    if bs == [] then [] else (if bs[0].hole then [bs[0]] else []) + Holes(bs[1..])
  }

  /** What holds between operations. */
  ghost predicate WF(h: Heap) {
    && Tiled(h.blocks, h.start, h.end)
    && h.end % PAGE == 0 && h.end <= h.max
    && NonEmpty(h.blocks)
    && NoTwoHoles(h.blocks)
    && Sorted(h.index)
    && multiset(h.index) == multiset(Holes(h.blocks))
  }

  // ---------------------------------------------------------------- holes

  lemma {:induction false} HolesConcat(a: seq<Block>, b: seq<Block>)
    ensures Holes(a + b) == Holes(a) + Holes(b)
  {
    if a == [] {
      assert a + b == b;
    } else {
      assert (a + b)[1..] == a[1..] + b;
      HolesConcat(a[1..], b);
    }
  }

  lemma HolesOf3(a: seq<Block>, b: seq<Block>, c: seq<Block>)
    ensures Holes(a + b + c) == Holes(a) + Holes(b) + Holes(c)
  {
    HolesConcat(a + b, c);
    HolesConcat(a, b);
  }

  lemma {:induction false} HolesMember(bs: seq<Block>, b: Block)
    ensures b in Holes(bs) <==> b in bs && b.hole
  {
    if bs != [] {
      HolesMember(bs[1..], b);
      assert bs == [bs[0]] + bs[1..];
    }
  }

  lemma InIndex(h: Heap, b: Block)
    requires multiset(h.index) == multiset(Holes(h.blocks))
    ensures b in h.index <==> b in h.blocks && b.hole
  {
    HolesMember(h.blocks, b);
    assert b in h.index <==> b in multiset(h.index);
    assert b in Holes(h.blocks) <==> b in multiset(Holes(h.blocks));
  }

  // ---------------------------------------------------------------- addresses

  lemma {:induction false} AddrOrder(bs: seq<Block>, start: nat, end: nat, i: nat, j: nat)
    requires Tiled(bs, start, end) && i < j < |bs|
    ensures bs[i].End() <= bs[j].addr
    decreases j - i
  {
    if i + 1 < j {
      AddrOrder(bs, start, end, i, j - 1);
    }
  }

  lemma AddrUnique(bs: seq<Block>, start: nat, end: nat, i: nat, j: nat)
    requires Tiled(bs, start, end) && i < |bs| && j < |bs| && bs[i].addr == bs[j].addr
    ensures i == j
  {
    if i < j {
      AddrOrder(bs, start, end, i, j);
    } else if j < i {
      AddrOrder(bs, start, end, j, i);
    }
  }

  lemma AddrFinds(bs: seq<Block>, start: nat, end: nat, k: nat)
    requires Tiled(bs, start, end) && k < |bs|
    ensures AddrPos(bs, bs[k].addr, 0) == k
  {
    var p := AddrPos(bs, bs[k].addr, 0);
    if p < |bs| {
      AddrUnique(bs, start, end, p, k);
    }
  }

  // ---------------------------------------------------------------- the index

  lemma InsertSorted(ix: seq<Block>, b: Block)
    requires Sorted(ix)
    ensures Sorted(Insert(ix, b))
  {
    var p := InsertPos(ix, b.size, 0);
    var r := Insert(ix, b);
    if |ix| < CAP {
      forall i, j | 0 <= i < j < |r| ensures r[i].size <= r[j].size {
        assert r[i] == if i < p then ix[i] else if i == p then b else ix[i - 1];
        assert r[j] == if j < p then ix[j] else if j == p then b else ix[j - 1];
      }
    }
  }

  lemma InsertKeeps(ix: seq<Block>, b: Block)
    requires Sorted(ix)
    ensures Sorted(Insert(ix, b))
    ensures |ix| < CAP ==> multiset(Insert(ix, b)) == multiset(ix) + multiset{b} && |Insert(ix, b)| == |ix| + 1
  {
    InsertSorted(ix, b);
    var p := InsertPos(ix, b.size, 0);
    assert ix == ix[..p] + ix[p..];
  }

  lemma RemoveAtKeeps(ix: seq<Block>, i: nat)
    requires i < |ix|
    ensures Sorted(ix) ==> Sorted(RemoveAt(ix, i))
    ensures multiset(RemoveAt(ix, i)) == multiset(ix) - multiset{ix[i]}
  {
    assert ix == ix[..i] + [ix[i]] + ix[i + 1..];
  }

  /** Removing by address is exact when the address occurs once, whatever the order. */
  lemma RemoveAddrKeeps(ix: seq<Block>, b: Block)
    requires b in ix && forall x :: x in ix && x.addr == b.addr ==> x == b
    ensures Sorted(ix) ==> Sorted(RemoveAddr(ix, b.addr))
    ensures multiset(RemoveAddr(ix, b.addr)) == multiset(ix) - multiset{b} && |RemoveAddr(ix, b.addr)| == |ix| - 1
  {
    var p := AddrPos(ix, b.addr, 0);
    assert p < |ix|;
    RemoveAtKeeps(ix, p);
  }

  lemma {:induction false} InsertAllKeeps(ix: seq<Block>, bs: seq<Block>)
    requires Sorted(ix) && |ix| + |bs| <= CAP
    ensures Sorted(InsertAll(ix, bs)) && multiset(InsertAll(ix, bs)) == multiset(ix) + multiset(bs)
    decreases |bs|
  {
    if bs != [] {
      InsertKeeps(ix, bs[0]);
      InsertAllKeeps(Insert(ix, bs[0]), bs[1..]);
      assert bs == [bs[0]] + bs[1..];
    }
  }

  // ---------------------------------------------------------------- splicing

  /** Replacing blocks lo..hi by blocks that fill the same range keeps the tiling. */
  lemma SpliceTiled(bs: seq<Block>, start: nat, end: nat, lo: nat, hi: nat, mid: seq<Block>)
    requires Tiled(bs, start, end) && lo < hi <= |bs|
    requires Tiled(mid, bs[lo].addr, bs[hi - 1].End())
    ensures Tiled(bs[..lo] + mid + bs[hi..], start, end)
  {
    var r := bs[..lo] + mid + bs[hi..];
    forall i | 0 <= i < |r| - 1 ensures r[i].End() == r[i + 1].addr {
      if i + 1 < lo {
        assert r[i] == bs[i] && r[i + 1] == bs[i + 1];
      } else if i + 1 == lo {
        assert r[i] == bs[i] && r[i + 1] == mid[0];
      } else if i + 1 < lo + |mid| {
        assert r[i] == mid[i - lo] && r[i + 1] == mid[i + 1 - lo];
      } else if i + 1 == lo + |mid| {
        assert r[i] == mid[|mid| - 1] && r[i + 1] == bs[hi];
      } else {
        assert r[i] == bs[i - lo - |mid| + hi] && r[i + 1] == bs[i + 1 - lo - |mid| + hi];
      }
    }
  }

  /** Likewise for the absence of neighbouring holes. */
  lemma SpliceNoTwoHoles(bs: seq<Block>, lo: nat, hi: nat, mid: seq<Block>)
    requires NoTwoHoles(bs) && NoTwoHoles(mid) && lo < hi <= |bs| && mid != []
    requires lo > 0 && bs[lo - 1].hole ==> !mid[0].hole
    requires hi < |bs| && bs[hi].hole ==> !mid[|mid| - 1].hole
    ensures NoTwoHoles(bs[..lo] + mid + bs[hi..])
  {
    var r := bs[..lo] + mid + bs[hi..];
    forall i | 0 <= i < |r| - 1 ensures !(r[i].hole && r[i + 1].hole) {
      if i + 1 < lo {
        assert r[i] == bs[i] && r[i + 1] == bs[i + 1];
      } else if i + 1 == lo {
        assert r[i] == bs[i] && r[i + 1] == mid[0];
      } else if i + 1 < lo + |mid| {
        assert r[i] == mid[i - lo] && r[i + 1] == mid[i + 1 - lo];
      } else if i + 1 == lo + |mid| {
        assert r[i] == mid[|mid| - 1] && r[i + 1] == bs[hi];
      } else {
        assert r[i] == bs[i - lo - |mid| + hi] && r[i + 1] == bs[i + 1 - lo - |mid| + hi];
      }
    }
  }

  lemma SpliceNonEmpty(bs: seq<Block>, lo: nat, hi: nat, mid: seq<Block>)
    requires NonEmpty(bs) && NonEmpty(mid) && lo <= hi <= |bs|
    ensures NonEmpty(bs[..lo] + mid + bs[hi..])
  {
  }

  lemma MultisetReplace<T>(a: seq<T>, b: seq<T>, c: seq<T>, d: seq<T>)
    ensures multiset(a + d + c) == multiset(a + b + c) - multiset(b) + multiset(d)
  {
    assert multiset(a + d + c) == multiset(a) + multiset(d) + multiset(c);
    assert multiset(a + b + c) == multiset(a) + multiset(b) + multiset(c);
  }

  lemma SpliceHoles(bs: seq<Block>, lo: nat, hi: nat, mid: seq<Block>)
    requires lo <= hi <= |bs|
    ensures multiset(Holes(bs[..lo] + mid + bs[hi..]))
         == multiset(Holes(bs)) - multiset(Holes(bs[lo..hi])) + multiset(Holes(mid))
  {
    HolesOf3(bs[..lo], mid, bs[hi..]);
    assert bs == bs[..lo] + bs[lo..hi] + bs[hi..];
    HolesOf3(bs[..lo], bs[lo..hi], bs[hi..]);
    MultisetReplace(Holes(bs[..lo]), Holes(bs[lo..hi]), Holes(bs[hi..]), Holes(mid));
  }

  lemma OneHole(b: Block)
    requires b.hole
    ensures Holes([b]) == [b] && multiset(Holes([b])) == multiset{b}
  {
  }

  lemma SpliceOneHole(l: seq<Block>, b: Block, r: seq<Block>, mid: seq<Block>)
    requires b.hole
    ensures multiset(Holes(l + mid + r)) == multiset(Holes(l + [b] + r)) - multiset{b} + multiset(Holes(mid))
  {
    HolesOf3(l, mid, r);
    HolesOf3(l, [b], r);
    OneHole(b);
    MultisetReplace(Holes(l), [b], Holes(r), Holes(mid));
  }
}
