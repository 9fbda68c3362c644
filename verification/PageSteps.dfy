/**
  Every primitive step of src/mem/page.c keeps the reference-count invariant, none of its
  Asserts can fail, and each changes what user code sees exactly as a machine with private
  pages would.
 */
module PageSteps {
  import opened PageSpec
  import opened RefCount
  import opened PageMachine
  import opened PageMemory

  /** What user code of one space sees: page number to page contents. */
  ghost function View(mem: seq<Page>, sp: Space): (w: map<nat, Page>)
    requires |mem| == FRAMES && sp.Ok()
  {
    map v: nat | USER_LO <= v < USER_HI && sp.pt[v].present :: mem[sp.pt[v].frame]
  }

  /** What user code of every space sees. */
  ghost function Views(m: Machine): (a: map<nat, map<nat, Page>>)
    requires Sized(m)
  {
    map s | s in m.spaces :: View(m.phys.mem, m.spaces[s])
  }

  ghost function Put(m: Machine, s: nat, p: Phys, sp: Space): Machine {
    m.(phys := p, spaces := m.spaces[s := sp])
  }

  lemma PutSized(m: Machine, s: nat, p: Phys, sp: Space)
    requires Sized(m) && p.Ok() && sp.Ok()
    ensures Sized(Put(m, s, p, sp))
  {
  }

  lemma PutCovered(m: Machine, s: nat, p: Phys, sp: Space)
    requires Inv(m) && p.Ok() && sp.Ok() && TablesCover(sp)
    ensures var n := Put(m, s, p, sp);
            Sized(n) && forall t :: t in n.spaces ==> TablesCover(n.spaces[t])
  {
  }

  /** What the invariant says about one space. */
  lemma InvParts(m: Machine, s: nat)
    requires Inv(m) && s in m.spaces
    ensures Sized(m) && m.phys.Ok() && m.spaces[s].Ok() && TablesCover(m.spaces[s])
  {
  }

  // ---------------------------------------------------------------- generic steps

  ghost predicate SameBut(m: Machine, n: Machine, r: Ref) {
    forall q :: q != r ==> (Live(n, q) <==> Live(m, q)) && (Live(m, q) ==> Frame(n, q) == Frame(m, q))
  }

  lemma GraphAdds(m: Machine, n: Machine, r: Ref)
    requires SameBut(m, n, r) && Live(n, r)
    ensures Graph(n) == Graph(m)[r := Frame(n, r)]
  {
  }

  lemma GraphDrops(m: Machine, n: Machine, r: Ref)
    requires SameBut(m, n, r) && !Live(n, r)
    ensures Graph(n) == Graph(m) - {r}
  {
  }

  /** A new reference to a frame whose count was zero. */
  lemma FreshInv(m: Machine, n: Machine, r: Ref, f: nat)
    requires Inv(m) && Sized(n) && SameBut(m, n, r)
    requires !Live(m, r) && Live(n, r) && Frame(n, r) == f < FRAMES && m.phys.counts[f] == 0
    requires n.phys.counts == m.phys.counts[f := 1]
    requires forall q :: q in Writable(n) && q != r ==> q in Writable(m)
    requires forall t :: t in n.spaces ==> TablesCover(n.spaces[t])
    ensures Inv(n)
  {
    GraphAdds(m, n, r);
    ZeroIsUnused(m.phys.counts, Graph(m), f);
    AddRef(m.phys.counts, Graph(m), r, f);
    AddFresh(Graph(m), Writable(m), Writable(n), r, f);
  }

  /** A reference goes and the count of its frame falls by one. */
  lemma DropInv(m: Machine, n: Machine, r: Ref)
    requires Inv(m) && Sized(n) && SameBut(m, n, r)
    requires Live(m, r) && !Live(n, r)
    requires Frame(m, r) < FRAMES && m.phys.counts[Frame(m, r)] >= 1
    requires n.phys.counts == m.phys.counts[Frame(m, r) := m.phys.counts[Frame(m, r)] - 1]
    requires forall q :: q in Writable(n) && q != r ==> q in Writable(m)
    requires forall t :: t in n.spaces ==> TablesCover(n.spaces[t])
    ensures Inv(n)
  {
    GraphDrops(m, n, r);
    DropRef(m.phys.counts, Graph(m), r);
    Drop(Graph(m), Writable(m), Writable(n), r);
  }

  /** No Assert of release_phy_frame fails on a live reference. */
  lemma LiveIsCounted(m: Machine, r: Ref)
    requires Inv(m) && Live(m, r)
    ensures Frame(m, r) < FRAMES && m.phys.counts[Frame(m, r)] >= 1
  {
    assert r in Graph(m);
    UsedIsCounted(m.phys.counts, Graph(m), r);
  }

  lemma UnusedFrame(m: Machine, f: nat)
    requires Inv(m) && f < FRAMES && m.phys.counts[f] == 0
    ensures forall r :: Live(m, r) ==> Frame(m, r) != f
  {
    ZeroIsUnused(m.phys.counts, Graph(m), f);
    forall r | Live(m, r) ensures Frame(m, r) != f {
      assert r in Graph(m);
    }
  }

  /** A space whose frames are untouched shows the same pages. */
  lemma SameView(m: Machine, mem: seq<Page>, s: nat, f: nat)
    requires Sized(m) && s in m.spaces && |mem| == FRAMES
    requires forall g :: 0 <= g < FRAMES && g != f ==> mem[g] == m.phys.mem[g]
    requires forall v :: Live(m, Pag(s, v)) ==> Frame(m, Pag(s, v)) != f
    ensures View(mem, m.spaces[s]) == View(m.phys.mem, m.spaces[s])
  {
    var sp := m.spaces[s];
    forall v: nat | USER_LO <= v < USER_HI && sp.pt[v].present ensures sp.pt[v].frame != f {
      assert UserPage(v) && Live(m, Pag(s, v));
    }
  }

  /** Writing a frame that no other space refers to changes the view of space s alone. */
  lemma PutViews(m: Machine, s: nat, p: Phys, sp: Space, f: nat)
    requires Sized(m) && p.Ok() && sp.Ok()
    requires forall g :: 0 <= g < FRAMES && g != f ==> p.mem[g] == m.phys.mem[g]
    requires forall r: Ref :: r.Pag? && Live(m, r) && r.s != s ==> Frame(m, r) != f
    ensures Sized(Put(m, s, p, sp)) && Views(Put(m, s, p, sp)) == Views(m)[s := View(p.mem, sp)]
  {
    PutSized(m, s, p, sp);
    forall t | t in m.spaces && t != s ensures View(p.mem, m.spaces[t]) == View(m.phys.mem, m.spaces[t]) {
      SameView(m, p.mem, t, f);
    }
  }

  // ---------------------------------------------------------------- demand mapping

  lemma NoOp(m: Machine, s: nat)
    requires s in m.spaces
    ensures Put(m, s, m.phys, m.spaces[s]) == m
  {
    assert m.spaces[s := m.spaces[s]] == m.spaces;
  }

  /** Clearing a table that was not there changes no user mapping. */
  lemma ClearedTableWasEmpty(sp: Space, i: nat)
    requires sp.Ok() && TablesCover(sp) && UserTable(i) && !sp.pd[i].present
    ensures forall v :: UserPage(v) ==> Maps(ClearTable(sp.pt, i), v) == Maps(sp.pt, v)
    ensures forall v :: UserPage(v) && Maps(sp.pt, v) ==> ClearTable(sp.pt, i)[v] == sp.pt[v]
  {
  }

  /** The reference a new page table adds. */
  lemma TableChange(m: Machine, s: nat, i: nat, p: Phys, sp: Space, f: nat)
    requires Sized(m) && s in m.spaces && UserTable(i) && TablesCover(m.spaces[s]) && !m.spaces[s].pd[i].present && sp.Ok() && f < FRAMES
    requires sp == m.spaces[s].(pd := m.spaces[s].pd[i := Pte(true, true, true, f)], pt := ClearTable(m.spaces[s].pt, i))
    ensures var n := Put(m, s, p, sp); SameBut(m, n, Tab(s, i)) && forall q :: q in Writable(n) ==> q in Writable(m)
    ensures TablesCover(sp)
  {
    ClearedTableWasEmpty(m.spaces[s], i);
  }

  lemma SameUserPages(mem: seq<Page>, sp: Space, x: Space)
    requires |mem| == FRAMES && sp.Ok() && x.Ok()
    requires forall v :: UserPage(v) ==> Maps(x.pt, v) == Maps(sp.pt, v)
    requires forall v :: UserPage(v) && Maps(sp.pt, v) ==> x.pt[v].frame == sp.pt[v].frame
    ensures View(mem, x) == View(mem, sp)
  {
    forall v: nat | USER_LO <= v < USER_HI
      ensures x.pt[v].present == sp.pt[v].present && (sp.pt[v].present ==> x.pt[v].frame == sp.pt[v].frame)
    {
      assert UserPage(v) && Maps(x.pt, v) == x.pt[v].present && Maps(sp.pt, v) == sp.pt[v].present;
    }
  }

  /** A space replaced by one that shows the same pages. */
  lemma SameViews(m: Machine, s: nat, p: Phys, sp: Space)
    requires Sized(m) && s in m.spaces && p.Ok() && sp.Ok() && p.mem == m.phys.mem && View(p.mem, sp) == View(m.phys.mem, m.spaces[s])
    ensures Sized(Put(m, s, p, sp)) && Views(Put(m, s, p, sp)) == Views(m)
  {
    hide View;
    PutSized(m, s, p, sp);
  }

  /** A missing table is added. */
  lemma AddTable(m: Machine, s: nat, i: nat, p: Phys, sp: Space, f: nat)
    requires Inv(m) && s in m.spaces && UserTable(i) && !m.spaces[s].pd[i].present && p.Ok() && sp.Ok()
    requires f < FRAMES && m.phys.counts[f] == 0 && p.counts == m.phys.counts[f := 1] && p.mem == m.phys.mem
    requires sp == m.spaces[s].(pd := m.spaces[s].pd[i := Pte(true, true, true, f)], pt := ClearTable(m.spaces[s].pt, i))
    ensures Inv(Put(m, s, p, sp)) && Views(Put(m, s, p, sp)) == Views(m)
  {
    hide Inv;
    InvParts(m, s);
    TableChange(m, s, i, p, sp, f);
    PutCovered(m, s, p, sp);
    ClearedTableWasEmpty(m.spaces[s], i);
    SameUserPages(m.phys.mem, m.spaces[s], sp);
    hide TablesCover, Sized, SameBut, Views, View;
    SameViews(m, s, p, sp);
    FreshInv(m, Put(m, s, p, sp), Tab(s, i), f);
  }

  lemma KeepMapTable(m: Machine, s: nat, i: nat)
    requires Inv(m) && s in m.spaces && UserTable(i)
    requires MapTable(m.phys, m.spaces[s], i).Done?
    ensures var (p, sp) := MapTable(m.phys, m.spaces[s], i).value;
            Inv(Put(m, s, p, sp)) && Views(Put(m, s, p, sp)) == Views(m) && sp.pd[i].present
  {
    hide Inv, Views;
    InvParts(m, s);
    var (p, sp) := MapTable(m.phys, m.spaces[s], i).value;
    if m.spaces[s].pd[i].present {
      NoOp(m, s);
    } else {
      hide AllocFrame, ClearTable;
      AddTable(m, s, i, p, sp, sp.pd[i].frame);
    }
  }

  /** Rewriting one page-table entry touches one reference. */
  lemma EntryChange(m: Machine, s: nat, v: nat, p: Phys, e: Pte)
    requires Sized(m) && s in m.spaces && UserPage(v)
    ensures var n := Put(m, s, p, m.spaces[s].(pt := m.spaces[s].pt[v := e]));
            && SameBut(m, n, Pag(s, v))
            && (forall q :: q in Writable(n) && q != Pag(s, v) ==> q in Writable(m))
  {
  }

  lemma EntryCovered(sp: Space, v: nat, e: Pte)
    requires sp.Ok() && UserPage(v) && TablesCover(sp)
    requires e.present ==> sp.pd[v / TABLE].present && e.user && e.frame < FRAMES
    ensures var x := sp.(pt := sp.pt[v := e]); x.Ok() && TablesCover(x)
  {
  }

  /** A page that gets a fresh frame: what a step that touches only page v of space s keeps. */
  lemma FreshPage(m: Machine, s: nat, v: nat, p: Phys, sp: Space, f: nat)
    requires Inv(m) && s in m.spaces && UserPage(v) && p.Ok() && sp.Ok()
    requires m.spaces[s].pd[v / TABLE].present && !m.spaces[s].pt[v].present
    requires f < FRAMES && m.phys.counts[f] == 0 && p.counts == m.phys.counts[f := 1]
    requires sp == m.spaces[s].(pt := m.spaces[s].pt[v := Pte(true, true, true, f)])
    ensures Inv(Put(m, s, p, sp))
  {
    EntryCovered(m.spaces[s], v, sp.pt[v]);
    PutCovered(m, s, p, sp);
    EntryChange(m, s, v, p, sp.pt[v]);
    FreshInv(m, Put(m, s, p, sp), Pag(s, v), f);
  }

  lemma KeepMapEntry(m: Machine, s: nat, v: nat)
    requires Inv(m) && s in m.spaces && UserPage(v) && m.spaces[s].pd[v / TABLE].present
    requires MapEntry(m.phys, m.spaces[s], v).Done?
    ensures var (p, sp) := MapEntry(m.phys, m.spaces[s], v).value;
            var n := Put(m, s, p, sp);
            var w := View(m.phys.mem, m.spaces[s]);
            Inv(n) && Views(n) == Views(m)[s := if v in w then w else w[v := ZeroPage()]]
  {
    var (p, sp) := MapEntry(m.phys, m.spaces[s], v).value;
    if m.spaces[s].pt[v].present {
      NoOp(m, s);
    } else {
      var f := sp.pt[v].frame;
      FreshPage(m, s, v, p, sp, f);
      UnusedFrame(m, f);
      PutViews(m, s, p, sp, f);
      SameView(m, p.mem, s, f);
      assert View(p.mem, sp) == View(m.phys.mem, m.spaces[s])[v := ZeroPage()];
    }
  }

  /** map_page in the eager machine: a missing page appears as zeroes. */
  ghost function WithPage(w: map<nat, Page>, v: nat): (x: map<nat, Page>)
    ensures v in x
  {
    if v in w then w else w[v := ZeroPage()]
  }

  lemma PutPut(m: Machine, s: nat, p: Phys, sp: Space, p1: Phys, sp1: Space)
    ensures Put(Put(m, s, p, sp), s, p1, sp1) == Put(m, s, p1, sp1)
  {
    assert m.spaces[s := sp][s := sp1] == m.spaces[s := sp1];
  }

  /** After map_page the page is present in a present table, and writable if it was missing. */
  lemma MappedPage(p: Phys, sp: Space, v: nat)
    requires p.Ok() && sp.Ok() && UserPage(v) && MapPage(p, sp, v).Done?
    ensures var (_, x) := MapPage(p, sp, v).value;
            && x.pd[v / TABLE].present && x.pt[v].present
            && (!sp.pd[v / TABLE].present || !sp.pt[v].present ==> x.pt[v].rw)
  {
  }

  lemma KeepMapPage(m: Machine, s: nat, v: nat)
    requires Inv(m) && s in m.spaces && UserPage(v)
    requires MapPage(m.phys, m.spaces[s], v).Done?
    ensures var (p, sp) := MapPage(m.phys, m.spaces[s], v).value;
            var n := Put(m, s, p, sp);
            Inv(n) && Views(n) == Views(m)[s := WithPage(View(m.phys.mem, m.spaces[s]), v)]
    ensures v !in View(m.phys.mem, m.spaces[s]) ==> forall i :: 0 <= i < PAGE_SIZE ==> WithPage(View(m.phys.mem, m.spaces[s]), v)[v][i] == 0
  {
    KeepMapTable(m, s, v / TABLE);
    var (p1, sp1) := MapTable(m.phys, m.spaces[s], v / TABLE).value;
    var m1 := Put(m, s, p1, sp1);
    assert Views(m1)[s] == Views(m)[s];
    KeepMapEntry(m1, s, v);
    var (p, sp) := MapEntry(p1, sp1, v).value;
    PutPut(m, s, p1, sp1, p, sp);
  }

  // ---------------------------------------------------------------- copy on write

  /** The only reference to a frame may become writable. */
  lemma GrantInv(m: Machine, s: nat, v: nat, sp: Space)
    requires Inv(m) && s in m.spaces && UserPage(v) && m.spaces[s].pt[v].present
    requires m.phys.counts[m.spaces[s].pt[v].frame] == 1
    requires sp == m.spaces[s].(pt := m.spaces[s].pt[v := m.spaces[s].pt[v].(rw := true)])
    ensures Inv(Put(m, s, m.phys, sp))
  {
    var n, r := Put(m, s, m.phys, sp), Pag(s, v);
    hide Inv, Graph, SharedAtSamePage, Counted, Private;
    InvParts(m, s);
    GraphParts(m);
    EntryCovered(m.spaces[s], v, sp.pt[v]);
    PutCovered(m, s, m.phys, sp);
    EntryChange(m, s, v, m.phys, sp.pt[v]);
    assert Live(m, r) && Live(n, r) && Frame(n, r) == Frame(m, r) == m.spaces[s].pt[v].frame;
    InGraph(m, r);
    GraphAdds(m, n, r);
    assert Graph(n) == Graph(m);
    hide Writable, TablesCover, Sized, SameBut, Live, Frame;
    OneIsSole(m.phys.counts, Graph(m), r);
    SoleIsPrivate(Graph(m), Writable(m), Writable(n), r);
    InvFrom(n);
  }

  lemma SoleIsPrivate(g: map<Ref, nat>, w: iset<Ref>, x: iset<Ref>, r: Ref)
    requires Private(g, w) && (forall q :: q in x && q != r ==> q in w) && forall q :: q in g && r in g && g[q] == g[r] ==> q == r
    ensures Private(g, x)
  {
  }

  lemma MoveRefInv(m: Machine, n: Machine, r: Ref, f: nat)
    requires Inv(m) && Sized(n) && SameBut(m, n, r)
    requires Live(m, r) && Live(n, r) && Frame(n, r) == f < FRAMES && m.phys.counts[f] == 0
    requires Frame(m, r) < FRAMES && Frame(m, r) != f && m.phys.counts[Frame(m, r)] >= 1
    requires n.phys.counts == m.phys.counts[f := 1][Frame(m, r) := m.phys.counts[Frame(m, r)] - 1]
    requires forall q :: q in Writable(n) && q != r ==> q in Writable(m)
    requires forall t :: t in n.spaces ==> TablesCover(n.spaces[t])
    ensures Inv(n)
  {
    hide Inv, Graph, Writable, TablesCover, Sized, SharedAtSamePage, Counted, Private, Live, Frame, SameBut;
    InGraph(m, r);
    GraphAdds(m, n, r);
    GraphParts(m);
    MoveGraph(m.phys.counts, Graph(m), Writable(m), Writable(n), r, f);
    InvFrom(n);
  }

  lemma InGraph(m: Machine, r: Ref)
    requires Live(m, r)
    ensures r in Graph(m) && Graph(m)[r] == Frame(m, r)
  {
  }

  /** One reference moves to an unused frame. */
  lemma MoveGraph(counts: seq<nat>, g: map<Ref, nat>, w: iset<Ref>, x: iset<Ref>, r: Ref, f: nat)
    requires |counts| == FRAMES && Counted(counts, g) && SharedAtSamePage(g) && Private(g, w)
    requires r in g && g[r] < FRAMES && f < FRAMES && g[r] != f && counts[f] == 0 && counts[g[r]] >= 1
    requires forall q :: q in x && q != r ==> q in w
    ensures Counted(counts[f := 1][g[r] := counts[g[r]] - 1], g[r := f]) && SharedAtSamePage(g[r := f]) && Private(g[r := f], x)
  {
    hide SharedAtSamePage, Private, Counted;
    ZeroIsUnused(counts, g, f);
    MoveRef(counts, g, r, f);
    AddFresh(g, w, x, r, f);
  }

  lemma GraphParts(m: Machine)
    requires Inv(m)
    ensures Counted(m.phys.counts, Graph(m)) && SharedAtSamePage(Graph(m)) && Private(Graph(m), Writable(m)) && |m.phys.counts| == FRAMES
  {
  }

  lemma InvFrom(n: Machine)
    requires Sized(n) && Counted(n.phys.counts, Graph(n)) && SharedAtSamePage(Graph(n)) && Private(Graph(n), Writable(n))
    requires forall s :: s in n.spaces ==> TablesCover(n.spaces[s])
    ensures Inv(n)
  {
  }

  /** A page moves from a shared frame to a fresh one. */
  lemma MoveInv(m: Machine, s: nat, v: nat, p: Phys, sp: Space, f: nat)
    requires Inv(m) && s in m.spaces && UserPage(v) && m.spaces[s].pt[v].present
    requires p.Ok() && sp.Ok() && f < FRAMES && m.phys.counts[f] == 0 && f != m.spaces[s].pt[v].frame
    requires var old_ := m.spaces[s].pt[v].frame;
             m.phys.counts[old_] >= 1 && p.counts == m.phys.counts[f := 1][old_ := m.phys.counts[old_] - 1]
    requires sp == m.spaces[s].(pt := m.spaces[s].pt[v := m.spaces[s].pt[v].(frame := f, rw := true)])
    ensures Inv(Put(m, s, p, sp))
  {
    EntryCovered(m.spaces[s], v, sp.pt[v]);
    PutCovered(m, s, p, sp);
    EntryChange(m, s, v, p, sp.pt[v]);
    MoveRefInv(m, Put(m, s, p, sp), Pag(s, v), f);
  }

  lemma CowGrants(m: Machine, s: nat, v: nat)
    requires Inv(m) && s in m.spaces && UserPage(v) && m.spaces[s].pt[v].present
    requires m.phys.counts[m.spaces[s].pt[v].frame] == 1
    ensures var r := CowFault(m.phys, m.spaces[s], v);
            && r.Done?
            && Inv(Put(m, s, r.value.0, r.value.1)) && Views(Put(m, s, r.value.0, r.value.1)) == Views(m)
  {
    hide Inv, Views, View;
    InvParts(m, s);
    var sp := m.spaces[s].(pt := m.spaces[s].pt[v := m.spaces[s].pt[v].(rw := true)]);
    assert CowFault(m.phys, m.spaces[s], v) == Done((m.phys, sp));
    GrantInv(m, s, v, sp);
    SameUserPages(m.phys.mem, m.spaces[s], sp);
    SameViews(m, s, m.phys, sp);
  }

  lemma CowCopies(m: Machine, s: nat, v: nat)
    requires Inv(m) && s in m.spaces && UserPage(v) && m.spaces[s].pt[v].present
    requires m.phys.counts[m.spaces[s].pt[v].frame] > 1
    ensures var r := CowFault(m.phys, m.spaces[s], v);
            && !r.AssertFailed?
            && (r.Done? ==> Inv(Put(m, s, r.value.0, r.value.1)) && Views(Put(m, s, r.value.0, r.value.1)) == Views(m))
  {
    var r := CowFault(m.phys, m.spaces[s], v);
    if r.Done? {
      var (p, sp) := r.value;
      MoveInv(m, s, v, p, sp, sp.pt[v].frame);
      CowViews(m, s, v, p, sp, sp.pt[v].frame);
    }
  }

  /** handle_cow_fault fails no Assert, makes the page writable and changes nothing user code sees. */
  lemma KeepCow(m: Machine, s: nat, v: nat)
    requires Inv(m) && s in m.spaces && UserPage(v) && m.spaces[s].pt[v].present
    ensures var r := CowFault(m.phys, m.spaces[s], v);
            && !r.AssertFailed?
            && (r.NoMemory? <==> m.phys.counts[m.spaces[s].pt[v].frame] > 1 && Free(m.phys) == 0)
            && (r.Done? ==>
                  && Inv(Put(m, s, r.value.0, r.value.1)) && Views(Put(m, s, r.value.0, r.value.1)) == Views(m)
                  && r.value.1.pt[v].rw && r.value.1.pt[v].present && r.value.1.pd == m.spaces[s].pd)
  {
    LiveIsCounted(m, Pag(s, v));
    assert TablesCover(m.spaces[s]);
    CowTakes(m.phys, m.spaces[s], v);
    if m.phys.counts[m.spaces[s].pt[v].frame] == 1 {
      CowGrants(m, s, v);
    } else {
      CowCopies(m, s, v);
    }
  }

  lemma CowViews(m: Machine, s: nat, v: nat, p: Phys, sp: Space, f: nat)
    requires Inv(m) && s in m.spaces && UserPage(v) && m.spaces[s].pt[v].present
    requires p.Ok() && sp.Ok() && f < FRAMES && m.phys.counts[f] == 0
    requires p.mem == m.phys.mem[f := m.phys.mem[m.spaces[s].pt[v].frame]]
    requires sp == m.spaces[s].(pt := m.spaces[s].pt[v := m.spaces[s].pt[v].(frame := f, rw := true)])
    ensures Sized(Put(m, s, p, sp)) && Views(Put(m, s, p, sp)) == Views(m)
  {
    UnusedFrame(m, f);
    PutViews(m, s, p, sp, f);
    SameView(m, p.mem, s, f);
    assert View(p.mem, sp) == View(m.phys.mem, m.spaces[s]);
  }

  // ---------------------------------------------------------------- user accesses

  /** An access stops for want of memory exactly when fewer frames are free than it needs, and otherwise takes those. */
  lemma TouchTakes(m: Machine, s: nat, v: nat, write: bool)
    requires Inv(m) && s in m.spaces && UserPage(v)
    ensures var r := Touch(m.phys, m.spaces[s], v, write);
      && (r.NoMemory? <==> Free(m.phys) < TouchNeeds(m.phys, m.spaces[s], v, write))
      && (r.Done? ==> Free(r.value.0) == Free(m.phys) - TouchNeeds(m.phys, m.spaces[s], v, write))
  {
    var p, sp := m.phys, m.spaces[s];
    assert TablesCover(sp);
    MapTakes(p, sp, v);
    if sp.pd[v / TABLE].present && sp.pt[v].present {
      LiveIsCounted(m, Pag(s, v));
      CowTakes(p, sp, v);
    }
    hide Inv, MapPage, CowFault;
  }

  /** After one fault the access hits; no Assert fails; the page is there and, for a store, private; only memory stops it. */
  lemma KeepTouch(m: Machine, s: nat, v: nat, write: bool)
    requires Inv(m) && s in m.spaces && UserPage(v)
    ensures !Touch(m.phys, m.spaces[s], v, write).AssertFailed?
    ensures Touch(m.phys, m.spaces[s], v, write).NoMemory? <==> Free(m.phys) < TouchNeeds(m.phys, m.spaces[s], v, write)
    ensures Touch(m.phys, m.spaces[s], v, write).Done? ==>
              var (p, sp, f) := Touch(m.phys, m.spaces[s], v, write).value;
              var n := Put(m, s, p, sp);
              && Inv(n) && Views(n) == Views(m)[s := WithPage(View(m.phys.mem, m.spaces[s]), v)]
              && sp.pt[v].present && sp.pt[v].frame == f && (write ==> sp.pt[v].rw)
  {
    assert TablesCover(m.spaces[s]);
    TouchTakes(m, s, v, write);
    match Translate(m.spaces[s], v, write)
    case Hit(_) =>
      NoOp(m, s);
      assert Views(m)[s := View(m.phys.mem, m.spaces[s])] == Views(m);
    case NotPresent =>
      if MapPage(m.phys, m.spaces[s], v).Done? {
        KeepMapPage(m, s, v);
        MappedPage(m.phys, m.spaces[s], v);
        var (p, sp) := MapPage(m.phys, m.spaces[s], v).value;
        assert TablesCover(Put(m, s, p, sp).spaces[s]);
      }
    case Protection =>
      KeepCow(m, s, v);
      assert Views(m)[s := View(m.phys.mem, m.spaces[s])] == Views(m);
      if CowFault(m.phys, m.spaces[s], v).Done? {
        var (p, sp) := CowFault(m.phys, m.spaces[s], v).value;
        assert TablesCover(Put(m, s, p, sp).spaces[s]);
      }
  }

  /** Storing through a writable entry is a store into that one page of that one space. */
  lemma KeepStoreHit(m: Machine, s: nat, v: nat, pg: Page)
    requires Inv(m) && s in m.spaces && UserPage(v) && m.spaces[s].pt[v].present && m.spaces[s].pt[v].rw
    ensures var f := m.spaces[s].pt[v].frame;
            var n := Put(m, s, m.phys.(mem := m.phys.mem[f := pg]), m.spaces[s]);
            Inv(n) && Views(n) == Views(m)[s := View(m.phys.mem, m.spaces[s])[v := pg]]
  {
    hide Inv;
    InvParts(m, s);
    var f := m.spaces[s].pt[v].frame;
    var p := m.phys.(mem := m.phys.mem[f := pg]);
    OnlyMapper(m, s, v);
    StoredInv(m, s, p);
    hide TablesCover, Writable;
    PutViews(m, s, p, m.spaces[s], f);
    StoredView(m, s, v, pg);
  }

  /** A writable page is the only reference to its frame. */
  lemma OnlyMapper(m: Machine, s: nat, v: nat)
    requires Inv(m) && s in m.spaces && UserPage(v) && m.spaces[s].pt[v].present && m.spaces[s].pt[v].rw
    ensures forall q :: Live(m, q) && q != Pag(s, v) ==> Frame(m, q) != m.spaces[s].pt[v].frame
  {
    var r := Pag(s, v);
    assert r in Writable(m) && r in Graph(m);
    forall q | Live(m, q) && q != r ensures Frame(m, q) != m.spaces[s].pt[v].frame {
      assert q in Graph(m);
    }
  }

  /** Memory contents do not matter to the counts. */
  lemma StoredInv(m: Machine, s: nat, p: Phys)
    requires Inv(m) && s in m.spaces && p.Ok() && p.counts == m.phys.counts
    ensures Inv(Put(m, s, p, m.spaces[s]))
  {
    var n := Put(m, s, p, m.spaces[s]);
    assert n.spaces == m.spaces;
    assert Graph(n) == Graph(m) && Writable(n) == Writable(m);
  }

  lemma StoredView(m: Machine, s: nat, v: nat, pg: Page)
    requires Sized(m) && s in m.spaces && UserPage(v) && m.spaces[s].pt[v].present
    requires forall q :: Live(m, q) && q != Pag(s, v) ==> Frame(m, q) != m.spaces[s].pt[v].frame
    ensures var f := m.spaces[s].pt[v].frame; f < FRAMES && View(m.phys.mem[f := pg], m.spaces[s]) == View(m.phys.mem, m.spaces[s])[v := pg]
  {
    var f := m.spaces[s].pt[v].frame;
    forall u | UserPage(u) && m.spaces[s].pt[u].present && u != v ensures m.spaces[s].pt[u].frame != f {
      assert Live(m, Pag(s, u));
    }
  }
}
