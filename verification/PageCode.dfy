/**
  The routines of src/mem/page.c in their own form: counts and entries updated in place by
  loops. Each is proved to do what its function in PageSpec says.
 */
module PageCode {
  import opened Wrappers
  import opened PageSpec

  /** The page directory and tables of a new address space, seen through the copy windows. */
  class AddressSpace {
    const pdFrame: nat
    const pd: array<Pte>
    const pt: array<Pte>

    constructor (f: nat)
      requires f < FRAMES
      ensures pdFrame == f && pd.Length == TABLE && pt.Length == PAGES && pd != pt
      ensures fresh(pd) && fresh(pt)
      ensures Value() == EmptySpace(f)
    {
      pdFrame := f;
      pd := new Pte[TABLE](_ => ABSENT);
      pt := new Pte[PAGES](_ => ABSENT);
      new;
      assert pd[..] == EmptySpace(f).pd;
      assert pt[..] == EmptySpace(f).pt;
    }

    ghost function Value(): Space
      reads pd, pt
    {
      Space(pdFrame, pd[..], pt[..])
    }
  }

  class Pager {
    const counts: array<nat>        // phy_frames_array
    var last: nat                   // last_allocated_index
    const mem: array<Page>
    const cur: AddressSpace         // the space CR3 points at

    ghost predicate Valid()
      reads this, counts, mem, cur.pd, cur.pt
    {
      && counts.Length == FRAMES && mem.Length == FRAMES && last < FRAMES
      && cur.pd.Length == TABLE && cur.pt.Length == PAGES && cur.pd != cur.pt
      && cur.Value().Ok()
    }

    ghost function Frames(): Phys
      reads this, counts, mem
    {
      Phys(counts[..], last, mem[..])
    }

    /** init_page: the first 3 MB and the last frame are taken. */
    constructor (kernelDir: AddressSpace)
      requires kernelDir.pd.Length == TABLE && kernelDir.pt.Length == PAGES && kernelDir.pd != kernelDir.pt
      requires kernelDir.Value().Ok()
      ensures Valid() && cur == kernelDir && fresh(counts) && fresh(mem)
      ensures forall f :: 0 <= f < FRAMES ==> counts[f] == if f < 768 || f == FRAMES - 1 then 1 else 0
    {
      counts := new nat[FRAMES](_ => 0);
      last := 0;
      mem := new Page[FRAMES](_ => ZeroPage());
      cur := kernelDir;
      new;
      for i := 0 to 768
        modifies counts
        invariant forall f :: 0 <= f < FRAMES ==> counts[f] == if f < i then 1 else 0
      {
        counts[i] := 1;
      }
      counts[FRAMES - 1] := 1;
    }

    method AllocPhyFrame() returns (f: int)
      requires Valid()
      modifies this`last, counts
      ensures Valid()
      ensures match AllocFrame(old(Frames()))
              case Done((p, g)) => f == g && Frames() == p
              case NoMemory => f == -1
              case AssertFailed => false
    {
      var start := last;
      for i := 0 to FRAMES
        invariant counts[..] == old(counts[..]) && last == start
        invariant Scan(counts[..], start, 0) == Scan(counts[..], start, i)
      {
        var c := Slot(start, i);
        if counts[c] == 0 {
          counts[c] := 1;
          last := c;
          assert counts[..] == old(counts[..])[c := 1];
          return c;
        }
      }
      return -1;
    }

    /** `ok` is false where the source asserts. */
    method ReleasePhyFrame(f: nat) returns (ok: bool)
      requires Valid()
      modifies counts
      ensures Valid()
      ensures match ReleaseFrame(old(Frames()), f)
              case Done(p) => ok && Frames() == p
              case _ => !ok
    {
      if f >= FRAMES || counts[f] == 0 {
        return false;
      }
      counts[f] := counts[f] - 1;
      assert counts[..] == old(counts[..])[f := old(counts[f]) - 1];
      return true;
    }

    method IncCowRef(f: nat)
      requires Valid() && f < FRAMES
      modifies counts
      ensures Valid() && Frames() == IncRef(old(Frames()), f)
    {
      counts[f] := (counts[f] + 1) % COUNT_MOD;
      assert counts[..] == old(counts[..])[f := (old(counts[f]) + 1) % COUNT_MOD];
    }

    /** clear_page on a page table. */
    method ClearPageTable(i: nat)
      requires Valid() && i < TABLE
      modifies cur.pt
      ensures Valid() && cur.pt[..] == ClearTable(old(cur.pt[..]), i)
    {
      for j := 0 to TABLE
        invariant forall v :: 0 <= v < PAGES ==>
                    cur.pt[v] == if i * TABLE <= v < i * TABLE + j then ABSENT else old(cur.pt[v])
      {
        cur.pt[i * TABLE + j] := ABSENT;
      }
      assert forall v :: 0 <= v < PAGES ==> (i * TABLE <= v < i * TABLE + TABLE <==> v / TABLE == i);
    }

    /** The outcome of a routine that changes the counts and the current space. */
    ghost predicate Did(r: Outcome<()>, spec: Outcome<(Phys, Space)>)
      reads this, counts, mem, cur.pd, cur.pt
    {
      match spec
      case Done((p, sp)) => r.Done? && Frames() == p && cur.Value() == sp
      case NoMemory => r.NoMemory?
      case AssertFailed => r.AssertFailed?
    }

    /** The first half of map_page_with_frame_impl. */
    method MapPageTable(i: nat) returns (r: Outcome<()>)
      requires Valid() && i < TABLE
      modifies this`last, counts, cur.pd, cur.pt
      ensures Valid()
      ensures Did(r, MapTable(old(Frames()), old(cur.Value()), i))
    {
      if cur.pd[i].present {
        return Done(());
      }
      var f := AllocPhyFrame();
      if f < 0 {
        return NoMemory;
      }
      cur.pd[i] := Pte(true, true, i < USER_PDE_HI, f);
      assert cur.pd[..] == old(cur.pd[..])[i := Pte(true, true, i < USER_PDE_HI, f)];
      ClearPageTable(i);
      return Done(());
    }

    /** The second half of map_page_with_frame_impl, with no frame given. */
    method MapPageEntry(v: nat) returns (r: Outcome<()>)
      requires Valid() && v < PAGES
      modifies this`last, counts, mem, cur.pt
      ensures Valid()
      ensures Did(r, MapEntry(old(Frames()), old(cur.Value()), v))
    {
      if cur.pt[v].present {
        return Done(());
      }
      var f := AllocPhyFrame();
      if f < 0 {
        return NoMemory;
      }
      cur.pt[v] := Pte(true, true, v < USER_HI, f);
      assert cur.pt[..] == old(cur.pt[..])[v := Pte(true, true, v < USER_HI, f)];
      mem[f] := ZeroPage();
      assert mem[..] == old(mem[..])[f := ZeroPage()];
      return Done(());
    }

    method MapPage(v: nat) returns (r: Outcome<()>)
      requires Valid() && v < PAGES
      modifies this`last, counts, mem, cur.pd, cur.pt
      ensures Valid()
      ensures Did(r, PageSpec.MapPage(old(Frames()), old(cur.Value()), v))
    {
      r := MapPageTable(v / TABLE);
      if r.Done? {
        r := MapPageEntry(v);
      }
    }

    method HandleCowFault(v: nat) returns (r: Outcome<()>)
      requires Valid() && v < PAGES
      modifies this`last, counts, mem, cur.pt
      ensures Valid()
      ensures Did(r, CowFault(old(Frames()), old(cur.Value()), v))
    {
      if !cur.pd[v / TABLE].present || !cur.pt[v].present {
        return AssertFailed;
      }
      var e := cur.pt[v];
      if counts[e.frame] < 1 {
        return AssertFailed;
      }
      if counts[e.frame] == 1 {
        cur.pt[v] := e.(rw := true);
        assert cur.pt[..] == old(cur.pt[..])[v := e.(rw := true)];
        return Done(());
      }
      var f := AllocPhyFrame();
      if f < 0 {
        return NoMemory;
      }
      mem[f] := mem[e.frame];
      assert mem[..] == old(mem[..])[f := old(mem[e.frame])];
      cur.pt[v] := e.(frame := f, rw := true);
      assert cur.pt[..] == old(cur.pt[..])[v := e.(frame := f, rw := true)];
      var ok := ReleasePhyFrame(e.frame);
      return if ok then Done(()) else AssertFailed;
    }

    /** release_page with frame_free; the caller has checked the directory entry. */
    method ReleaseOnePage(v: nat) returns (ok: bool)
      requires Valid() && v < PAGES && cur.pd[v / TABLE].present
      modifies counts, cur.pt
      ensures Valid()
      ensures Did(if ok then Done(()) else AssertFailed, ReleasePage(old(Frames()), old(cur.Value()), v))
    {
      if !cur.pt[v].present {
        return true;
      }
      ok := ReleasePhyFrame(cur.pt[v].frame);
      if ok {
        cur.pt[v] := ABSENT;
        assert cur.pt[..] == old(cur.pt[..])[v := ABSENT];
      }
    }

    /** One turn of the outer loop of release_pages: the entries from..to_ of table i. */
    method ReleaseWithinTable(i: nat, from: nat, to_: nat) returns (ok: bool)
      requires Valid() && i * TABLE <= from <= to_ <= i * TABLE + TABLE <= PAGES
      modifies counts, cur.pt
      ensures Valid()
      ensures Did(if ok then Done(()) else AssertFailed, ReleaseRange(old(Frames()), old(cur.Value()), from, to_))
    {
      if !cur.pd[i].present {
        SkipTable(Frames(), cur.Value(), from, to_);
        return true;
      }
      for j := from to to_
        invariant Valid()
        invariant ReleaseRange(old(Frames()), old(cur.Value()), from, j) == Done((Frames(), cur.Value()))
      {
        assert j / TABLE == i;
        ok := ReleaseOnePage(j);
        if !ok {
          FailedRange(old(Frames()), old(cur.Value()), from, j + 1, to_);
          return false;
        }
      }
      return true;
    }

    /** One turn of release_pages: what lies in table i, after the pages below it. */
    method ReleaseTurn(i: nat, lo: nat, hi: nat, ghost first: nat, ghost last: nat, ghost p: Phys, ghost sp: Space) returns (ok: bool)
      requires Valid() && lo < hi <= PAGES && Spans(lo, hi, first, last) && first <= i < last && p.Ok() && sp.Ok()
      requires lo <= Clamp(i, lo, hi) <= hi && ReleaseRange(p, sp, lo, Clamp(i, lo, hi)) == Done((Frames(), cur.Value()))
      modifies counts, cur.pt
      ensures Valid() && lo <= Clamp(i + 1, lo, hi) <= hi
      ensures ok ==> ReleaseRange(p, sp, lo, Clamp(i + 1, lo, hi)) == Done((Frames(), cur.Value()))
      ensures !ok ==> ReleaseRange(p, sp, lo, hi).AssertFailed?
    {
      hide ReleaseRange, Spans;
      SpanSplit(p, sp, Frames(), cur.Value(), i, lo, hi, first, last);
      SpanTurn(i, lo, hi, first, last);
      hide Clamp;
      ok := ReleaseWithinTable(i, Max(i * TABLE, lo), Min(i * TABLE + TABLE, hi));
      if !ok {
        FailedRange(p, sp, lo, Clamp(i + 1, lo, hi), hi);
      }
    }

    /** release_pages with frame_free: the loop over directory entries first..last. */
    method ReleaseSpan(lo: nat, hi: nat, first: nat, last: nat) returns (ok: bool)
      requires Valid() && lo < hi <= PAGES && Spans(lo, hi, first, last)
      modifies counts, cur.pt
      ensures Valid()
      ensures Did(if ok then Done(()) else AssertFailed, ReleaseRange(old(Frames()), old(cur.Value()), lo, hi))
    {
      ghost var p0, sp0 := Frames(), cur.Value();
      SpanEnds(lo, hi, first, last);
      RangeEmpty(p0, sp0, lo);
      hide ReleaseRange, Clamp, Spans;
      for i := first to last
        invariant Valid() && lo <= Clamp(i, lo, hi) <= hi
        invariant ReleaseRange(p0, sp0, lo, Clamp(i, lo, hi)) == Done((Frames(), cur.Value()))
      {
        ok := ReleaseTurn(i, lo, hi, first, last, p0, sp0);
        if !ok {
          return;
        }
      }
      return true;
    }

    /** release_pages. */
    method ReleasePages(vaddr: nat, count: nat) returns (ok: bool)
      requires Valid() && 0 < count && vaddr / PAGE_SIZE + count <= PAGES
      modifies counts, cur.pt
      ensures Valid()
      ensures Did(if ok then Done(()) else AssertFailed,
                  ReleaseRange(old(Frames()), old(cur.Value()), vaddr / PAGE_SIZE, vaddr / PAGE_SIZE + count))
    {
      var lo := vaddr / PAGE_SIZE;
      ok := ReleaseSpan(lo, lo + count, lo / TABLE, (lo + count - 1) / TABLE + 1);
    }

    /** One turn of release_page_tables. */
    method ReleaseOneTable(i: nat) returns (ok: bool)
      requires Valid() && i < TABLE
      modifies counts, cur.pd
      ensures Valid()
      ensures Did(if ok then Done(()) else AssertFailed, ReleaseTable(old(Frames()), old(cur.Value()), i))
    {
      ok := true;
      if cur.pd[i].present {
        ghost var before := cur.pd[..];
        ok := ReleasePhyFrame(cur.pd[i].frame);
        if ok {
          cur.pd[i] := ABSENT;
          assert cur.pd[..] == before[i := ABSENT];
        }
      }
    }

    method ReleasePageTables(start: nat, num: nat) returns (ok: bool)
      requires Valid() && start + num <= TABLE
      modifies counts, cur.pd
      ensures Valid()
      ensures Did(if ok then Done(()) else AssertFailed, ReleaseTables(old(Frames()), old(cur.Value()), start, start + num))
    {
      hide ReleaseTable;
      for i := start to start + num
        invariant Valid()
        invariant ReleaseTables(old(Frames()), old(cur.Value()), start, i) == Done((Frames(), cur.Value()))
      {
        ok := ReleaseOneTable(i);
        if !ok {
          FailedTables(old(Frames()), old(cur.Value()), start, i + 1, start + num);
          return false;
        }
      }
      return true;
    }

    /** memcpy of one page table into the copy window. */
    method CopyTable(child: AddressSpace, i: nat)
      requires Valid() && i < TABLE && child.pt.Length == PAGES && child.pt != cur.pt && child.pt != cur.pd
      modifies child.pt
      ensures forall v :: 0 <= v < PAGES ==>
                child.pt[v] == if i * TABLE <= v < i * TABLE + TABLE then cur.pt[v] else old(child.pt[v])
    {
      for j := 0 to TABLE
        invariant forall v :: 0 <= v < PAGES ==>
                    child.pt[v] == if i * TABLE <= v < i * TABLE + j then cur.pt[v] else old(child.pt[v])
      {
        child.pt[i * TABLE + j] := cur.pt[i * TABLE + j];
      }
    }

    ghost predicate Apart(child: AddressSpace) {
      && child.pd.Length == TABLE && child.pt.Length == PAGES
      && child.pd != cur.pd && child.pd != cur.pt && child.pt != cur.pd && child.pt != cur.pt && child.pd != child.pt
    }

    /** Entry v, already copied: both sides read-only and one more reference. */
    method ShareOneEntry(child: AddressSpace, v: nat)
      requires Valid() && Apart(child) && child.Value().Ok() && v < PAGES && child.pt[v] == cur.pt[v]
      modifies counts, cur.pt, child.pt
      ensures Valid() && child.Value().Ok()
      ensures (Frames(), cur.Value(), child.Value()) == ShareEntry(old(Frames()), old(cur.Value()), old(child.Value()), v)
    {
      if child.pt[v].present {
        cur.pt[v] := cur.pt[v].(rw := false);
        child.pt[v] := child.pt[v].(rw := false);
        IncCowRef(child.pt[v].frame);
      }
      assert cur.pt[..] == old(cur.pt[..])[v := Low(old(cur.pt[v]))];
      assert child.pt[..] == old(child.pt[..])[v := Low(old(cur.pt[v]))];
    }

    /** One turn of the outer loop of clone_crt_page_dir, once the frame f is allocated. */
    method CloneOneTable(child: AddressSpace, i: nat, f: nat)
      requires Valid() && Apart(child) && child.Value().Ok() && i < TABLE && f < FRAMES
      modifies counts, cur.pt, child.pt, child.pd
      ensures Valid() && child.Value().Ok()
      ensures var w := old(child.Value());
              (Frames(), cur.Value(), child.Value())
              == ShareTable(old(Frames()), old(cur.Value()), w.(pd := w.pd[i := Pte(true, true, true, f)]), i, TABLE)
    {
      ghost var p0, c0, w0 := Frames(), cur.Value(), child.Value();
      CopyTable(child, i);
      child.pd[i] := Pte(true, true, true, f);
      ghost var raw := child.Value();
      ShareAllEntries(child, i);
      CopyFirst(p0, c0, w0.(pd := w0.pd[i := Pte(true, true, true, f)]), raw, i);
    }

    /** The inner loop: every entry of the copied table. */
    method ShareAllEntries(child: AddressSpace, i: nat)
      requires Valid() && Apart(child) && child.Value().Ok() && i < TABLE
      requires forall v :: i * TABLE <= v < i * TABLE + TABLE ==> child.pt[v] == cur.pt[v]
      modifies counts, cur.pt, child.pt
      ensures Valid() && child.Value().Ok()
      ensures (Frames(), cur.Value(), child.Value()) == ShareTable(old(Frames()), old(cur.Value()), old(child.Value()), i, TABLE)
    {
      ghost var p0, c0, raw := Frames(), cur.Value(), child.Value();
      for j := 0 to TABLE
        invariant Valid() && child.Value().Ok()
        invariant (Frames(), cur.Value(), child.Value()) == ShareTable(p0, c0, raw, i, j)
      {
        SharedShape(p0, c0, raw, i, j);
        ShareOneEntry(child, i * TABLE + j);
      }
    }

    /** One turn of the outer loop. */
    method CloneNextTable(child: AddressSpace, i: nat) returns (r: Outcome<()>)
      requires Valid() && Apart(child) && child.Value().Ok() && i < TABLE
      modifies this`last, counts, cur.pt, child.pt, child.pd
      ensures Valid() && child.Value().Ok()
      ensures match CloneTable(old(Frames()), old(cur.Value()), old(child.Value()), i)
              case Done(t) => r.Done? && t == (Frames(), cur.Value(), child.Value())
              case _ => r.NoMemory?
    {
      r := Done(());
      if cur.pd[i].present {
        var g := AllocPhyFrame();
        if g < 0 {
          r := NoMemory;
        } else {
          CloneOneTable(child, i, g);
        }
      }
    }

    method CloneCrtPageDir() returns (r: Outcome<()>, child: AddressSpace?)
      requires Valid()
      modifies this`last, counts, cur.pt
      ensures Valid()
      ensures match Clone(old(Frames()), old(cur.Value()))
              case Done((p, c, w)) => r.Done? && child != null && fresh(child) && Frames() == p && cur.Value() == c && child.Value() == w
              case _ => r.NoMemory?
    {
      var f := AllocPhyFrame();
      if f < 0 {
        return NoMemory, null;
      }
      ghost var p0, c0 := Frames(), cur.Value();
      child := new AddressSpace(f);
      r := Done(());
      var i := USER_PDE_LO;
      while r.Done? && i < USER_PDE_HI
        invariant USER_PDE_LO <= i <= USER_PDE_HI
        invariant Valid() && child != null && fresh(child) && fresh(child.pd) && fresh(child.pt) && Apart(child) && child.Value().Ok()
        invariant match CloneTables(p0, c0, EmptySpace(f), i)
                  case Done(t) => r.Done? && t == (Frames(), cur.Value(), child.Value())
                  case _ => r.NoMemory?
      {
        r := CloneNextTable(child, i);
        i := i + 1;
      }
      FailedClone(p0, c0, EmptySpace(f), i, USER_PDE_HI);
    }
  }

  /** Copying the whole table before marking it gives the same as copying entry by entry. */
  lemma CopyFirst(p: Phys, c: Space, w: Space, raw: Space, i: nat)
    requires p.Ok() && c.Ok() && w.Ok() && raw.Ok() && i < TABLE && raw == w.(pt := raw.pt)
    requires forall v :: 0 <= v < PAGES && !(i * TABLE <= v < i * TABLE + TABLE) ==> raw.pt[v] == w.pt[v]
    ensures ShareTable(p, c, raw, i, TABLE) == ShareTable(p, c, w, i, TABLE)
  {
    SameParent(p, c, w, raw, i, TABLE);
    SharedShape(p, c, w, i, TABLE);
    SharedShape(p, c, raw, i, TABLE);
    assert ShareTable(p, c, raw, i, TABLE).2.pt == ShareTable(p, c, w, i, TABLE).2.pt;
  }

  lemma {:induction false} SameParent(p: Phys, c: Space, w: Space, x: Space, i: nat, j: nat)
    requires p.Ok() && c.Ok() && w.Ok() && x.Ok() && i < TABLE && j <= TABLE
    ensures ShareTable(p, c, w, i, j).0 == ShareTable(p, c, x, i, j).0
    ensures ShareTable(p, c, w, i, j).1 == ShareTable(p, c, x, i, j).1
  {
    if j > 0 {
      SameParent(p, c, w, x, i, j - 1);
    }
  }

  lemma {:induction false} FailedClone(p: Phys, c: Space, w: Space, mid: nat, hi: nat)
    requires p.Ok() && c.Ok() && w.Ok() && USER_PDE_LO <= mid <= hi <= USER_PDE_HI
    ensures CloneTables(p, c, w, mid).NoMemory? ==> CloneTables(p, c, w, hi).NoMemory?
  {
    if mid < hi {
      FailedClone(p, c, w, mid, hi - 1);
    }
  }

  /** The first page of table i that release_pages reaches, kept within lo..hi. */
  ghost function Clamp(i: nat, lo: nat, hi: nat): nat
    requires lo <= hi
  {
    if i * TABLE < lo then lo else if i * TABLE > hi then hi else i * TABLE
  }

  lemma TurnEnds(lo: nat, hi: nat)
    requires lo < hi
    ensures lo / TABLE <= (hi - 1) / TABLE + 1
    ensures Clamp(lo / TABLE, lo, hi) == lo && Clamp((hi - 1) / TABLE + 1, lo, hi) == hi
  {
  }

  /** The directory entries first..last cover the pages lo..hi. */
  predicate Spans(lo: nat, hi: nat, first: nat, last: nat)
    requires lo < hi
  {
    first == lo / TABLE && last == (hi - 1) / TABLE + 1
  }

  lemma SpanEnds(lo: nat, hi: nat, first: nat, last: nat)
    requires lo < hi && Spans(lo, hi, first, last)
    ensures first <= last && Clamp(first, lo, hi) == lo && Clamp(last, lo, hi) == hi
  {
    TurnEnds(lo, hi);
  }

  lemma SpanTurn(i: nat, lo: nat, hi: nat, first: nat, last: nat)
    requires lo < hi <= PAGES && Spans(lo, hi, first, last) && first <= i < last
    ensures var from, to_ := Max(i * TABLE, lo), Min(i * TABLE + TABLE, hi);
            && from == Clamp(i, lo, hi) && to_ == Clamp(i + 1, lo, hi)
            && i * TABLE <= from <= to_ <= i * TABLE + TABLE <= PAGES && lo <= from && to_ <= hi && i < TABLE
  {
    TurnBounds(i, lo, hi);
  }

  /** The range up to the end of turn i, split where the turn starts. */
  lemma SpanSplit(p: Phys, sp: Space, q: Phys, x: Space, i: nat, lo: nat, hi: nat, first: nat, last: nat)
    requires lo < hi <= PAGES && Spans(lo, hi, first, last) && first <= i < last && p.Ok() && sp.Ok() && q.Ok() && x.Ok()
    requires lo <= Clamp(i, lo, hi) <= hi && ReleaseRange(p, sp, lo, Clamp(i, lo, hi)) == Done((q, x))
    ensures lo <= Clamp(i, lo, hi) <= Clamp(i + 1, lo, hi) <= hi
    ensures ReleaseRange(p, sp, lo, Clamp(i + 1, lo, hi)) == ReleaseRange(q, x, Clamp(i, lo, hi), Clamp(i + 1, lo, hi))
  {
    hide ReleaseRange, Spans;
    SpanTurn(i, lo, hi, first, last);
    RangeSplit(p, sp, lo, Clamp(i, lo, hi), Clamp(i + 1, lo, hi));
  }

  lemma TurnBounds(i: nat, lo: nat, hi: nat)
    requires lo < hi <= PAGES && lo / TABLE <= i <= (hi - 1) / TABLE
    ensures var from, to_ := Max(i * TABLE, lo), Min(i * TABLE + TABLE, hi);
            && from == Clamp(i, lo, hi) && to_ == Clamp(i + 1, lo, hi)
            && i * TABLE <= from <= to_ <= i * TABLE + TABLE <= PAGES && lo <= from && to_ <= hi && i < TABLE
            && forall v :: from <= v < to_ ==> v / TABLE == i
  {
  }

  /** A range is released by releasing its first part and then the rest. */
  lemma {:induction false} RangeSplit(p: Phys, sp: Space, lo: nat, mid: nat, hi: nat)
    requires p.Ok() && sp.Ok() && lo <= mid <= hi <= PAGES && ReleaseRange(p, sp, lo, mid).Done?
    ensures var (q, x) := ReleaseRange(p, sp, lo, mid).value;
            ReleaseRange(p, sp, lo, hi) == ReleaseRange(q, x, mid, hi)
    decreases hi
  {
    hide ReleasePage;
    if mid < hi {
      RangeSplit(p, sp, lo, mid, hi - 1);
    }
  }

  lemma RangeEmpty(p: Phys, sp: Space, lo: nat)
    requires p.Ok() && sp.Ok() && lo <= PAGES
    ensures ReleaseRange(p, sp, lo, lo) == Done((p, sp))
  {
  }

  /** Pages of a missing table are passed over. */
  lemma {:induction false} SkipTable(p: Phys, sp: Space, a: nat, b: nat)
    requires p.Ok() && sp.Ok() && a <= b <= PAGES
    requires forall v :: a <= v < b ==> !sp.pd[v / TABLE].present
    ensures ReleaseRange(p, sp, a, b) == Done((p, sp))
    decreases b
  {
    if a < b {
      SkipTable(p, sp, a, b - 1);
      assert !sp.pd[(b - 1) / TABLE].present;
    }
  }

  /** A fold that has failed stays failed. */
  lemma {:induction false} FailedTables(p: Phys, sp: Space, lo: nat, mid: nat, hi: nat)
    requires p.Ok() && sp.Ok() && lo <= mid <= hi <= TABLE && ReleaseTables(p, sp, lo, mid).AssertFailed?
    ensures ReleaseTables(p, sp, lo, hi).AssertFailed?
    decreases hi
  {
    if mid < hi {
      FailedTables(p, sp, lo, mid, hi - 1);
    }
  }

  lemma {:induction false} FailedRange(p: Phys, sp: Space, lo: nat, mid: nat, hi: nat)
    requires p.Ok() && sp.Ok() && lo <= mid <= hi <= PAGES && ReleaseRange(p, sp, lo, mid).AssertFailed?
    ensures ReleaseRange(p, sp, lo, hi).AssertFailed?
    decreases hi
  {
    hide ReleasePage;
    if mid < hi {
      FailedRange(p, sp, lo, mid, hi - 1);
    }
  }
}
