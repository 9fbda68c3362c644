/**
  Copy-on-write paging (src/mem/page.c) as functions on values.

  One address space is the pair of arrays that the recursive mapping shows to the
  kernel: 1024 directory entries at PAGE_DIR_VIRTUAL and 2^20 page-table entries at
  PAGE_TABLES_VIRTUAL. The physical side is the reference-count array, the next-fit
  cursor and the contents of the frames.
 */
module PageSpec {
  import Bytes

  const FRAMES: nat := 8192       // PHYSICAL_MEM_SIZE / PAGE_SIZE
  const PAGE_SIZE: nat := 4096
  const TABLE: nat := 1024        // entries of a directory or of one table
  const PAGES: nat := 1048576     // page-table entries of one address space
  const USER_PDE_LO: nat := 1     // user space is PDE 1..767
  const USER_PDE_HI: nat := 768
  const USER_LO: nat := 1024
  const USER_HI: nat := 786432
  const COUNT_MOD: nat := 65536   // phy_frames_array holds uint16_t

  type Byte = Bytes.Byte
  type Page = p: seq<Byte> | |p| == PAGE_SIZE witness seq(PAGE_SIZE, i => 0)

  /** A page after clear_page. */
  function ZeroPage(): (p: Page)
    ensures forall i :: 0 <= i < PAGE_SIZE ==> p[i] == 0
  {
    seq(PAGE_SIZE, i => 0)
  }

  datatype Pte = Pte(present: bool, rw: bool, user: bool, frame: nat)
  const ABSENT: Pte := Pte(false, false, false, 0)

  /** What a kernel path ends in: a value, one of the two panics, or a fault that recurs. */
  datatype Outcome<+T> = Done(value: T) | NoMemory | AssertFailed {
    predicate IsFailure() { !Done? }
    function PropagateFailure<U>(): Outcome<U>
      requires !Done?
    {
      if NoMemory? then NoMemory else AssertFailed
    }
    function Extract(): T
      requires Done?
    {
      value
    }
  }

  datatype Phys = Phys(counts: seq<nat>, last: nat, mem: seq<Page>) {
    ghost predicate Ok() {
      |counts| == FRAMES && last < FRAMES && |mem| == FRAMES
    }
  }

  datatype Space = Space(pdFrame: nat, pd: seq<Pte>, pt: seq<Pte>) {
    ghost predicate Ok() {
      && |pd| == TABLE && |pt| == PAGES && pdFrame < FRAMES
      && (forall i :: 0 <= i < TABLE && pd[i].present ==> pd[i].frame < FRAMES)
      && (forall v :: 0 <= v < PAGES && pt[v].present ==> pt[v].frame < FRAMES)
    }
  }

  predicate UserPage(v: int) { USER_LO <= v < USER_HI }

  predicate UserTable(i: int) { USER_PDE_LO <= i < USER_PDE_HI }

  // ---------------------------------------------------------------- frames

  /** The frame k steps after the cursor. */
  function Slot(start: nat, k: nat): (f: nat)
    ensures f < FRAMES
  {
    (start + k) % FRAMES
  }

  /** The scan of alloc_phy_frame: at most one turn from `start`, -1 when no count is zero. */
  function Scan(counts: seq<nat>, start: nat, i: nat): (f: int)
    requires |counts| == FRAMES && i <= FRAMES
    ensures f == -1 || (0 <= f < FRAMES && counts[f] == 0)
    decreases FRAMES - i
  {
    if i == FRAMES then -1
    else
      var c := Slot(start, i);
      if counts[c] == 0 then c else Scan(counts, start, i + 1)
  }

  function AllocFrame(p: Phys): (r: Outcome<(Phys, nat)>)
    requires p.Ok()
    ensures !r.AssertFailed?
    ensures r.Done? ==> r.value.0.Ok() && r.value.1 < FRAMES && p.counts[r.value.1] == 0
                        && r.value.0.mem == p.mem && r.value.0.counts == p.counts[r.value.1 := 1]
  {
    var f := Scan(p.counts, p.last, 0);
    if f < 0 then NoMemory else Done((p.(counts := p.counts[f := 1], last := f), f))
  }

  function ReleaseFrame(p: Phys, f: nat): (r: Outcome<Phys>)
    requires p.Ok()
    ensures r.Done? ==> r.value.Ok() && r.value.mem == p.mem
  {
    if f >= FRAMES || p.counts[f] == 0 then AssertFailed
    else Done(p.(counts := p.counts[f := p.counts[f] - 1]))
  }

  /** inc_cow_ref: an unchecked uint16_t increment. */
  function IncRef(p: Phys, f: nat): (r: Phys)
    requires p.Ok() && f < FRAMES
    ensures r.Ok() && r.mem == p.mem && r.last == p.last
  {
    p.(counts := p.counts[f := (p.counts[f] + 1) % COUNT_MOD])
  }

  // ---------------------------------------------------------------- demand mapping

  /** The table part of map_page_with_frame_impl: allocate and clear a missing page table. */
  function MapTable(p: Phys, sp: Space, i: nat): (r: Outcome<(Phys, Space)>)
    requires p.Ok() && sp.Ok() && i < TABLE
    ensures !r.AssertFailed?
    ensures r.Done? ==> r.value.0.Ok() && r.value.1.Ok()
  {
    if sp.pd[i].present then Done((p, sp))
    else
      var (p1, f) :- AllocFrame(p);
      var sp1 := sp.(pd := sp.pd[i := Pte(true, true, i < USER_PDE_HI, f)],
                     pt := ClearTable(sp.pt, i));
      Done((p1, sp1))
  }

  function ClearTable(pt: seq<Pte>, i: nat): (r: seq<Pte>)
    requires |pt| == PAGES && i < TABLE
    ensures |r| == PAGES
    ensures forall v :: 0 <= v < PAGES ==> r[v] == if v / TABLE == i then ABSENT else pt[v]
  {
    seq(PAGES, v requires 0 <= v < PAGES => if v / TABLE == i then ABSENT else pt[v])
  }

  /** map_page: back page v by a fresh zeroed frame unless it is already present. */
  function MapPage(p: Phys, sp: Space, v: nat): (r: Outcome<(Phys, Space)>)
    requires p.Ok() && sp.Ok() && v < PAGES
    ensures !r.AssertFailed?
    ensures r.Done? ==> r.value.0.Ok() && r.value.1.Ok()
  {
    var (p1, sp1) :- MapTable(p, sp, v / TABLE);
    MapEntry(p1, sp1, v)
  }

  /** The entry part of map_page_with_frame_impl, with no frame given. */
  function MapEntry(p: Phys, sp: Space, v: nat): (r: Outcome<(Phys, Space)>)
    requires p.Ok() && sp.Ok() && v < PAGES
    ensures !r.AssertFailed?
    ensures r.Done? ==> r.value.0.Ok() && r.value.1.Ok()
  {
    if sp.pt[v].present then Done((p, sp))
    else
      var (p1, f) :- AllocFrame(p);
      Done((p1.(mem := p1.mem[f := ZeroPage()]), sp.(pt := sp.pt[v := Pte(true, true, v < USER_HI, f)])))
  }

  // ---------------------------------------------------------------- copy on write

  /** handle_cow_fault, with its three Asserts as AssertFailed. */
  function CowFault(p: Phys, sp: Space, v: nat): (r: Outcome<(Phys, Space)>)
    requires p.Ok() && sp.Ok() && v < PAGES
    ensures r.Done? ==> r.value.0.Ok() && r.value.1.Ok()
  {
    var e := sp.pt[v];
    if !sp.pd[v / TABLE].present || !e.present || p.counts[e.frame] < 1 then AssertFailed
    else if p.counts[e.frame] == 1 then Done((p, sp.(pt := sp.pt[v := e.(rw := true)])))
    else
      var (p1, f) :- AllocFrame(p);
      var p2 := p1.(mem := p1.mem[f := p1.mem[e.frame]]);
      var p3 :- ReleaseFrame(p2, e.frame);
      Done((p3, sp.(pt := sp.pt[v := e.(frame := f, rw := true)])))
  }

  /** The MMU's answer to a user-mode access (Intel SDM vol. 3A, sections 4.3 and 4.6). */
  datatype Access = Hit(frame: nat) | NotPresent | Protection

  function Translate(sp: Space, v: nat, write: bool): (a: Access)
    requires sp.Ok() && v < PAGES
    ensures a.Hit? ==> a.frame < FRAMES
  {
    var d := sp.pd[v / TABLE];
    var e := sp.pt[v];
    if !d.present || !e.present then NotPresent
    else if !d.user || !e.user || (write && !(d.rw && e.rw)) then Protection
    else Hit(e.frame)
  }

  /** pagefault_handler for a user-mode access to a user page. */
  function HandleFault(p: Phys, sp: Space, v: nat, write: bool): (r: Outcome<(Phys, Space)>)
    requires p.Ok() && sp.Ok() && UserPage(v)
    ensures r.Done? ==> r.value.0.Ok() && r.value.1.Ok()
  {
    match Translate(sp, v, write)
    case Hit(_) => Done((p, sp))
    case NotPresent => MapPage(p, sp, v)
    case Protection => if write then CowFault(p, sp, v) else AssertFailed
  }

  /** A user-mode access with its fault taken and the instruction retried once. */
  function Touch(p: Phys, sp: Space, v: nat, write: bool): (r: Outcome<(Phys, Space, nat)>)
    requires p.Ok() && sp.Ok() && UserPage(v)
    ensures r.Done? ==> r.value.0.Ok() && r.value.1.Ok() && r.value.2 < FRAMES
  {
    var (p1, sp1) :- HandleFault(p, sp, v, write);
    var a := Translate(sp1, v, write);
    if a.Hit? then Done((p1, sp1, a.frame)) else AssertFailed
  }

  function Store(p: Phys, sp: Space, v: nat, off: nat, b: Byte): (r: Outcome<(Phys, Space)>)
    requires p.Ok() && sp.Ok() && UserPage(v) && off < PAGE_SIZE
    ensures r.Done? ==> r.value.0.Ok() && r.value.1.Ok()
  {
    var (p1, sp1, f) :- Touch(p, sp, v, true);
    Done((p1.(mem := p1.mem[f := p1.mem[f][off := b]]), sp1))
  }

  // ---------------------------------------------------------------- fork

  /** One entry of the inner loop of clone_crt_page_dir: copy it, drop both write bits, count it. */
  function ShareEntry(p: Phys, cur: Space, new_: Space, v: nat): (r: (Phys, Space, Space))
    requires p.Ok() && cur.Ok() && new_.Ok() && v < PAGES
    ensures r.0.Ok() && r.1.Ok() && r.2.Ok()
  {
    var e := cur.pt[v];
    if !e.present then (p, cur, new_.(pt := new_.pt[v := e]))
    else
      var ro := e.(rw := false);
      (IncRef(p, e.frame), cur.(pt := cur.pt[v := ro]), new_.(pt := new_.pt[v := ro]))
  }

  /** The first j entries of table i. */
  function ShareTable(p: Phys, cur: Space, new_: Space, i: nat, j: nat): (r: (Phys, Space, Space))
    requires p.Ok() && cur.Ok() && new_.Ok() && i < TABLE && j <= TABLE
    ensures r.0.Ok() && r.1.Ok() && r.2.Ok()
  {
    if j == 0 then (p, cur, new_)
    else
      var (p1, cur1, new1) := ShareTable(p, cur, new_, i, j - 1);
      ShareEntry(p1, cur1, new1, i * TABLE + j - 1)
  }

  function Low(e: Pte): Pte { if e.present then e.(rw := false) else e }

  /** Entry for entry, what the first j turns of the inner loop leave behind. */
  lemma {:induction false} SharedShape(p: Phys, cur: Space, w: Space, i: nat, j: nat)
    requires p.Ok() && cur.Ok() && w.Ok() && i < TABLE && j <= TABLE
    ensures var (q, c, x) := ShareTable(p, cur, w, i, j);
            && q.mem == p.mem && c == cur.(pt := c.pt) && x == w.(pt := x.pt)
            && (forall v :: 0 <= v < PAGES ==> c.pt[v] == if i * TABLE <= v < i * TABLE + j then Low(cur.pt[v]) else cur.pt[v])
            && (forall v :: 0 <= v < PAGES ==> x.pt[v] == if i * TABLE <= v < i * TABLE + j then Low(cur.pt[v]) else w.pt[v])
  {
    if j > 0 {
      SharedShape(p, cur, w, i, j - 1);
    }
  }

  /** One turn of the outer loop of clone_crt_page_dir. */
  function CloneTable(p: Phys, cur: Space, new_: Space, i: nat): (r: Outcome<(Phys, Space, Space)>)
    requires p.Ok() && cur.Ok() && new_.Ok() && i < TABLE
    ensures !r.AssertFailed?
    ensures r.Done? ==> r.value.0.Ok() && r.value.1.Ok() && r.value.2.Ok()
  {
    if !cur.pd[i].present then Done((p, cur, new_))
    else
      var (p1, f) :- AllocFrame(p);
      Done(ShareTable(p1, cur, new_.(pd := new_.pd[i := Pte(true, true, true, f)]), i, TABLE))
  }

  /** PDEs 1..n-1 of the outer loop. */
  function CloneTables(p: Phys, cur: Space, new_: Space, n: nat): (r: Outcome<(Phys, Space, Space)>)
    requires p.Ok() && cur.Ok() && new_.Ok() && USER_PDE_LO <= n <= USER_PDE_HI
    ensures !r.AssertFailed?
    ensures r.Done? ==> r.value.0.Ok() && r.value.1.Ok() && r.value.2.Ok()
  {
    if n == USER_PDE_LO then Done((p, cur, new_))
    else
      var (p1, cur1, new1) :- CloneTables(p, cur, new_, n - 1);
      CloneTable(p1, cur1, new1, n - 1)
  }

  function EmptySpace(pdFrame: nat): (sp: Space)
    requires pdFrame < FRAMES
    ensures sp.Ok()
  {
    Space(pdFrame, seq(TABLE, i => ABSENT), seq(PAGES, v => ABSENT))
  }

  /** clone_crt_page_dir on the user range: the new counts, the parent afterwards, the child. */
  function Clone(p: Phys, cur: Space): (r: Outcome<(Phys, Space, Space)>)
    requires p.Ok() && cur.Ok()
    ensures !r.AssertFailed?
    ensures r.Done? ==> r.value.0.Ok() && r.value.1.Ok() && r.value.2.Ok()
  {
    var (p1, f) :- AllocFrame(p);
    CloneTables(p1, cur, EmptySpace(f), USER_PDE_HI)
  }

  // ---------------------------------------------------------------- release

  /** release_page with frame_free. */
  function ReleasePage(p: Phys, sp: Space, v: nat): (r: Outcome<(Phys, Space)>)
    requires p.Ok() && sp.Ok() && v < PAGES
    ensures r.Done? ==> r.value.0.Ok() && r.value.1.Ok()
  {
    if !sp.pd[v / TABLE].present || !sp.pt[v].present then Done((p, sp))
    else
      var p1 :- ReleaseFrame(p, sp.pt[v].frame);
      Done((p1, sp.(pt := sp.pt[v := ABSENT])))
  }

  /** Pages lo..hi-1, in order. */
  function ReleaseRange(p: Phys, sp: Space, lo: nat, hi: nat): (r: Outcome<(Phys, Space)>)
    requires p.Ok() && sp.Ok() && lo <= hi <= PAGES
    ensures r.Done? ==> r.value.0.Ok() && r.value.1.Ok() && r.value.1.pd == sp.pd && r.value.1.pdFrame == sp.pdFrame
    decreases hi
  {
    if lo == hi then Done((p, sp))
    else
      var (p1, sp1) :- ReleaseRange(p, sp, lo, hi - 1);
      ReleasePage(p1, sp1, hi - 1)
  }

  /** One turn of release_page_tables. */
  function ReleaseTable(p: Phys, sp: Space, i: nat): (r: Outcome<(Phys, Space)>)
    requires p.Ok() && sp.Ok() && i < TABLE
    ensures r.Done? ==> r.value.0.Ok() && r.value.1.Ok()
  {
    if !sp.pd[i].present then Done((p, sp))
    else
      var p1 :- ReleaseFrame(p, sp.pd[i].frame);
      Done((p1, sp.(pd := sp.pd[i := ABSENT])))
  }

  function ReleaseTables(p: Phys, sp: Space, lo: nat, hi: nat): (r: Outcome<(Phys, Space)>)
    requires p.Ok() && sp.Ok() && lo <= hi <= TABLE
    ensures r.Done? ==> r.value.0.Ok() && r.value.1.Ok()
    decreases hi
  {
    if lo == hi then Done((p, sp))
    else
      var (p1, sp1) :- ReleaseTables(p, sp, lo, hi - 1);
      ReleaseTable(p1, sp1, hi - 1)
  }

  /** release_user_space_pages. */
  function ReleaseUserSpace(p: Phys, sp: Space): (r: Outcome<(Phys, Space)>)
    requires p.Ok() && sp.Ok()
    ensures r.Done? ==> r.value.0.Ok() && r.value.1.Ok()
  {
    var (p1, sp1) :- ReleaseRange(p, sp, USER_LO, USER_HI);
    ReleaseTables(p1, sp1, USER_PDE_LO, USER_PDE_HI)
  }
}
