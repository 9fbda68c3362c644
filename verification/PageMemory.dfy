/**
  Free frames: how many each operation of src/mem/page.c takes, and that it stops for want of
  memory exactly when fewer are free.
 */
module PageMemory {
  import opened PageSpec

  // ---------------------------------------------------------------- the allocator

  /** Next fit: the result is the free frame reached first from the cursor, or nothing is free. */
  lemma {:induction false} ScanIsNextFit(counts: seq<nat>, start: nat, i: nat)
    requires |counts| == FRAMES && i <= FRAMES
    ensures var f := Scan(counts, start, i);
            if f < 0 then forall k :: i <= k < FRAMES ==> counts[Slot(start, k)] != 0
            else exists k :: i <= k < FRAMES && f == Slot(start, k)
                             && forall j :: i <= j < k ==> counts[Slot(start, j)] != 0
    decreases FRAMES - i
  {
    if i < FRAMES {
      if counts[Slot(start, i)] != 0 {
        ScanIsNextFit(counts, start, i + 1);
      } else {
        assert Scan(counts, start, i) == Slot(start, i);
      }
    }
  }

  lemma CyclicCover(start: nat, f: nat) returns (k: nat)
    requires start < FRAMES && f < FRAMES
    ensures k < FRAMES && Slot(start, k) == f
  {
    k := if f >= start then f - start else f + FRAMES - start;
  }

  /** The out-of-memory panic is taken exactly when every count is nonzero. */
  lemma NoMemoryIffFull(p: Phys)
    requires p.Ok()
    ensures AllocFrame(p).NoMemory? <==> forall f :: 0 <= f < FRAMES ==> p.counts[f] != 0
  {
    ScanIsNextFit(p.counts, p.last, 0);
    if AllocFrame(p).NoMemory? {
      forall f | 0 <= f < FRAMES ensures p.counts[f] != 0 {
        var k := CyclicCover(p.last, f);
      }
    }
  }

  /** alloc_phy_frame takes the first free frame from the cursor on, and leaves the cursor there. */
  lemma AllocIsNextFit(p: Phys, q: Phys, f: nat)
    requires p.Ok() && AllocFrame(p) == Done((q, f))
    ensures q.last == f && q.counts == p.counts[f := 1] && q.mem == p.mem
    ensures exists k :: 0 <= k < FRAMES && f == Slot(p.last, k) && forall j :: 0 <= j < k ==> p.counts[Slot(p.last, j)] != 0
  {
    ScanIsNextFit(p.counts, p.last, 0);
  }

  // ---------------------------------------------------------------- free frames

  ghost function Unused(counts: seq<nat>): set<nat> { set f: nat | f < |counts| && counts[f] == 0 }

  /** How many frames nothing refers to. */
  ghost function Free(p: Phys): nat { |Unused(p.counts)| }

  lemma TakeOne(counts: seq<nat>, f: nat, c: nat)
    requires f < |counts| && counts[f] == 0 && c > 0
    ensures |Unused(counts[f := c])| == |Unused(counts)| - 1
  {
    assert Unused(counts[f := c]) == Unused(counts) - {f};
  }

  lemma KeepUsed(counts: seq<nat>, f: nat, c: nat)
    requires f < |counts| && counts[f] > 0 && c > 0
    ensures Unused(counts[f := c]) == Unused(counts)
  {
  }

  lemma AllocTakes(p: Phys)
    requires p.Ok()
    ensures AllocFrame(p).NoMemory? <==> Free(p) == 0
    ensures AllocFrame(p).Done? ==> Free(AllocFrame(p).value.0) == Free(p) - 1
  {
    NoMemoryIffFull(p);
    if AllocFrame(p).Done? {
      TakeOne(p.counts, AllocFrame(p).value.1, 1);
    } else {
      assert Unused(p.counts) == {};
    }
  }

  /** r stops for want of memory exactly when fewer than d frames are free, and otherwise leaves d fewer. */
  ghost predicate Takes(p: Phys, r: Outcome<(Phys, Space)>, d: nat) {
    && (r.NoMemory? <==> Free(p) < d)
    && (r.Done? ==> Free(r.value.0) == Free(p) - d)
  }

  // ---------------------------------------------------------------- mapping

  /** Frames that map_page needs for page v: one for the page, one more for its table. */
  function MapNeeds(sp: Space, v: nat): nat
    requires sp.Ok() && v < PAGES
  {
    if !sp.pd[v / TABLE].present then 2 else if !sp.pt[v].present then 1 else 0
  }

  lemma EntryTakes(p: Phys, sp: Space, v: nat)
    requires p.Ok() && sp.Ok() && v < PAGES
    ensures Takes(p, MapEntry(p, sp, v), if sp.pt[v].present then 0 else 1)
  {
    AllocTakes(p);
    hide AllocFrame;
  }

  lemma MapTakes(p: Phys, sp: Space, v: nat)
    requires p.Ok() && sp.Ok() && v < PAGES
    ensures Takes(p, MapPage(p, sp, v), MapNeeds(sp, v))
  {
    AllocTakes(p);
    hide AllocFrame;
    var r := MapTable(p, sp, v / TABLE);
    if r.Done? {
      EntryTakes(r.value.0, r.value.1, v);
    }
  }

  /** A missing page of a kernel table, or of a new one, never becomes accessible to user code; a user page does. */
  lemma MapRights(p: Phys, sp: Space, v: nat)
    requires p.Ok() && sp.Ok() && v < PAGES && MapPage(p, sp, v).Done?
    ensures var x := MapPage(p, sp, v).value.1;
      && (!sp.pd[v / TABLE].present ==> (x.pd[v / TABLE].user <==> v < USER_HI))
      && (MapNeeds(sp, v) > 0 ==> (x.pt[v].user <==> v < USER_HI) && x.pt[v].rw)
  {
  }

  // ---------------------------------------------------------------- copy on write

  /** handle_cow_fault needs a frame exactly when the old one is shared. */
  lemma CowTakes(p: Phys, sp: Space, v: nat)
    requires p.Ok() && sp.Ok() && v < PAGES && sp.pd[v / TABLE].present && sp.pt[v].present && p.counts[sp.pt[v].frame] >= 1
    ensures Takes(p, CowFault(p, sp, v), if p.counts[sp.pt[v].frame] > 1 then 1 else 0)
  {
    var g := sp.pt[v].frame;
    AllocTakes(p);
    var r := AllocFrame(p);
    if r.Done? && p.counts[g] > 1 {
      hide AllocFrame;
      KeepUsed(r.value.0.counts, g, p.counts[g] - 1);
    }
  }

  /** Frames that an access to user page v needs. */
  function TouchNeeds(p: Phys, sp: Space, v: nat, write: bool): nat
    requires p.Ok() && sp.Ok() && v < PAGES
  {
    if MapNeeds(sp, v) > 0 then MapNeeds(sp, v)
    else if write && !sp.pt[v].rw && p.counts[sp.pt[v].frame] > 1 then 1 else 0
  }
}
