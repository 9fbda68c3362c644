/**
  Whole runs of the paging code against the eager machine: one private map of pages per
  address space, copied in full by fork.
 */
module PageRun {
  import opened PageSpec
  import opened RefCount
  import opened PageMachine
  import opened PageMemory
  import opened PageSteps
  import opened PageFork

  // ---------------------------------------------------------------- release

  ghost function Without(w: map<nat, Page>, lo: nat, hi: nat): map<nat, Page> {
    map v | v in w && !(lo <= v < hi) :: w[v]
  }

  /** A page loses its entry and its frame one reference. */
  lemma DropPage(m: Machine, s: nat, v: nat, p: Phys, sp: Space)
    requires Inv(m) && s in m.spaces && UserPage(v) && p.Ok() && sp.Ok() && m.spaces[s].pt[v].present
    requires sp == m.spaces[s].(pt := m.spaces[s].pt[v := ABSENT])
    requires var f := m.spaces[s].pt[v].frame;
             m.phys.counts[f] >= 1 && p.counts == m.phys.counts[f := m.phys.counts[f] - 1]
    ensures Inv(Put(m, s, p, sp))
  {
    EntryCovered(m.spaces[s], v, ABSENT);
    EntryChange(m, s, v, p, ABSENT);
    PutCovered(m, s, p, sp);
    DropInv(m, Put(m, s, p, sp), Pag(s, v));
  }

  lemma KeepReleasePage(m: Machine, s: nat, v: nat)
    requires Inv(m) && s in m.spaces && UserPage(v)
    ensures var r := ReleasePage(m.phys, m.spaces[s], v);
            r.Done? && Inv(Put(m, s, r.value.0, r.value.1))
  {
    if !m.spaces[s].pd[v / TABLE].present || !m.spaces[s].pt[v].present {
      NoOp(m, s);
    } else {
      LiveIsCounted(m, Pag(s, v));
      var (p, x) := ReleasePage(m.phys, m.spaces[s], v).value;
      DropPage(m, s, v, p, x);
    }
  }

  /** release_pages on user pages fails no Assert. */
  lemma {:induction false} KeepReleaseRange(m: Machine, s: nat, lo: nat, hi: nat)
    requires Inv(m) && s in m.spaces && USER_LO <= lo <= hi <= USER_HI
    ensures var r := ReleaseRange(m.phys, m.spaces[s], lo, hi);
            r.Done? && Inv(Put(m, s, r.value.0, r.value.1))
    decreases hi
  {
    if lo == hi {
      NoOp(m, s);
    } else {
      KeepReleaseRange(m, s, lo, hi - 1);
      var (p, sp) := ReleaseRange(m.phys, m.spaces[s], lo, hi - 1).value;
      var n := Put(m, s, p, sp);
      KeepReleasePage(n, s, hi - 1);
      var (p1, sp1) := ReleasePage(p, sp, hi - 1).value;
      PutPut(m, s, p, sp, p1, sp1);
    }
  }

  /** Entry for entry, what release_pages leaves behind. */
  lemma {:induction false} ReleasedShape(p: Phys, sp: Space, lo: nat, hi: nat)
    requires p.Ok() && sp.Ok() && TablesCover(sp) && USER_LO <= lo <= hi <= USER_HI
    requires ReleaseRange(p, sp, lo, hi).Done?
    ensures var (q, x) := ReleaseRange(p, sp, lo, hi).value;
            && q.mem == p.mem
            && (forall v :: UserPage(v) ==> Maps(x.pt, v) == (Maps(sp.pt, v) && !(lo <= v < hi)))
            && (forall v :: UserPage(v) && !(lo <= v < hi) ==> x.pt[v] == sp.pt[v])
    decreases hi
  {
    if lo < hi {
      ReleasedShape(p, sp, lo, hi - 1);
      assert UserPage(hi - 1);
    }
  }

  /** Exactly the pages of the range go. */
  lemma ReleasedViews(m: Machine, s: nat, lo: nat, hi: nat)
    requires Inv(m) && s in m.spaces && USER_LO <= lo <= hi <= USER_HI
    requires ReleaseRange(m.phys, m.spaces[s], lo, hi).Done?
    ensures var (p, sp) := ReleaseRange(m.phys, m.spaces[s], lo, hi).value;
            && Sized(Put(m, s, p, sp))
            && Views(Put(m, s, p, sp)) == Views(m)[s := Without(View(m.phys.mem, m.spaces[s]), lo, hi)]
  {
    ReleasedShape(m.phys, m.spaces[s], lo, hi);
    var (p, sp) := ReleaseRange(m.phys, m.spaces[s], lo, hi).value;
    PutSized(m, s, p, sp);
    WithoutRange(m.phys.mem, m.spaces[s], sp, lo, hi);
  }

  lemma WithoutRange(mem: seq<Page>, sp: Space, x: Space, lo: nat, hi: nat)
    requires |mem| == FRAMES && sp.Ok() && x.Ok()
    requires forall v :: UserPage(v) ==> Maps(x.pt, v) == (Maps(sp.pt, v) && !(lo <= v < hi))
    requires forall v :: UserPage(v) && !(lo <= v < hi) ==> x.pt[v] == sp.pt[v]
    ensures View(mem, x) == Without(View(mem, sp), lo, hi)
  {
    forall v: nat | USER_LO <= v < USER_HI
      ensures x.pt[v].present == (sp.pt[v].present && !(lo <= v < hi))
      ensures x.pt[v].present ==> x.pt[v] == sp.pt[v]
    {
      assert UserPage(v) && Maps(x.pt, v) == x.pt[v].present && Maps(sp.pt, v) == sp.pt[v].present;
    }
  }

  ghost predicate NoPages(sp: Space)
    requires sp.Ok()
  {
    forall v :: UserPage(v) ==> !sp.pt[v].present
  }

  ghost predicate NoTables(sp: Space, lo: nat, hi: nat)
    requires sp.Ok()
  {
    forall i :: lo <= i < hi && UserTable(i) ==> !sp.pd[i].present
  }

  lemma EmptyView(m: Machine, s: nat)
    requires Sized(m) && s in m.spaces
    ensures NoPages(m.spaces[s]) <==> View(m.phys.mem, m.spaces[s]) == map[]
  {
    if View(m.phys.mem, m.spaces[s]) == map[] {
      forall v | UserPage(v) ensures !m.spaces[s].pt[v].present {
        assert v !in View(m.phys.mem, m.spaces[s]);
      }
    }
  }

  lemma KeepReleaseTable(m: Machine, s: nat, i: nat)
    requires Inv(m) && s in m.spaces && UserTable(i) && NoPages(m.spaces[s])
    ensures var r := ReleaseTable(m.phys, m.spaces[s], i);
            && r.Done?
            && Inv(Put(m, s, r.value.0, r.value.1))
            && r.value.1 == m.spaces[s].(pd := m.spaces[s].pd[i := r.value.1.pd[i]]) && !r.value.1.pd[i].present
            && r.value.0.mem == m.phys.mem
  {
    var sp := m.spaces[s];
    hide Inv;
    InvParts(m, s);
    if !sp.pd[i].present {
      NoOp(m, s);
    } else {
      LiveIsCounted(m, Tab(s, i));
      var (p, x) := ReleaseTable(m.phys, sp, i).value;
      DropTable(m, s, i, p, x);
    }
  }

  lemma DropTable(m: Machine, s: nat, i: nat, p: Phys, x: Space)
    requires Inv(m) && s in m.spaces && UserTable(i) && NoPages(m.spaces[s]) && m.spaces[s].pd[i].present && p.Ok() && x.Ok()
    requires var f := m.spaces[s].pd[i].frame; f < FRAMES && m.phys.counts[f] >= 1 && p.counts == m.phys.counts[f := m.phys.counts[f] - 1]
    requires x == m.spaces[s].(pd := m.spaces[s].pd[i := ABSENT])
    ensures Inv(Put(m, s, p, x))
  {
    hide Inv;
    InvParts(m, s);
    var n := Put(m, s, p, x);
    assert TablesCover(x);
    assert SameBut(m, n, Tab(s, i)) && forall q :: q in Writable(n) ==> q in Writable(m);
    PutCovered(m, s, p, x);
    hide TablesCover, NoPages, SameBut, Sized;
    DropInv(m, n, Tab(s, i));
  }

  lemma {:induction false} KeepReleaseTables(m: Machine, s: nat, lo: nat, hi: nat)
    requires Inv(m) && s in m.spaces && USER_PDE_LO <= lo <= hi <= USER_PDE_HI && NoPages(m.spaces[s])
    ensures var r := ReleaseTables(m.phys, m.spaces[s], lo, hi);
            && r.Done?
            && Inv(Put(m, s, r.value.0, r.value.1))
            && r.value.0.mem == m.phys.mem
            && r.value.1 == m.spaces[s].(pd := r.value.1.pd)
            && NoTables(r.value.1, lo, hi)
    decreases hi
  {
    if lo == hi {
      NoOp(m, s);
    } else {
      KeepReleaseTables(m, s, lo, hi - 1);
      var (p, sp) := ReleaseTables(m.phys, m.spaces[s], lo, hi - 1).value;
      var n := Put(m, s, p, sp);
      KeepReleaseTable(n, s, hi - 1);
      var (p1, sp1) := ReleaseTable(p, sp, hi - 1).value;
      PutPut(m, s, p, sp, p1, sp1);
    }
  }

  ghost predicate Stripped(sp: Space) {
    sp.Ok() && NoPages(sp) && NoTables(sp, USER_PDE_LO, USER_PDE_HI)
  }

  /** release_user_space_pages frees every page and every table of the space. */
  lemma KeepReleaseUserSpace(m: Machine, s: nat)
    requires Inv(m) && s in m.spaces
    ensures var r := ReleaseUserSpace(m.phys, m.spaces[s]);
            && r.Done?
            && Inv(Put(m, s, r.value.0, r.value.1))
            && Views(Put(m, s, r.value.0, r.value.1)) == Views(m)[s := map[]]
            && Stripped(r.value.1) && r.value.1.pdFrame == m.spaces[s].pdFrame
  {
    KeepReleaseRange(m, s, USER_LO, USER_HI);
    ReleasedViews(m, s, USER_LO, USER_HI);
    var (p, sp) := ReleaseRange(m.phys, m.spaces[s], USER_LO, USER_HI).value;
    var n := Put(m, s, p, sp);
    assert Without(View(m.phys.mem, m.spaces[s]), USER_LO, USER_HI) == map[];
    assert Views(n)[s] == map[];
    EmptyView(n, s);
    KeepReleaseTables(n, s, USER_PDE_LO, USER_PDE_HI);
    var (p1, sp1) := ReleaseTables(p, sp, USER_PDE_LO, USER_PDE_HI).value;
    PutPut(m, s, p, sp, p1, sp1);
    SamePages(n, s, p1, sp1);
  }

  lemma SamePages(m: Machine, s: nat, p: Phys, sp: Space)
    requires Sized(m) && s in m.spaces && p.Ok() && sp.Ok() && p.mem == m.phys.mem && sp.pt == m.spaces[s].pt
    ensures Sized(Put(m, s, p, sp)) && Views(Put(m, s, p, sp)) == Views(m)
  {
    PutSized(m, s, p, sp);
    assert View(p.mem, sp) == View(m.phys.mem, m.spaces[s]);
    assert Views(m)[s := View(p.mem, sp)] == Views(m);
  }

  // ---------------------------------------------------------------- reaping and the kernel half

  /** destroy_process: give back the page-directory frame. */
  function Destroy(p: Phys, sp: Space): Outcome<Phys>
    requires p.Ok()
  {
    ReleaseFrame(p, sp.pdFrame)
  }

  lemma KeepDestroy(m: Machine, s: nat)
    requires Inv(m) && s in m.spaces && Stripped(m.spaces[s])
    ensures var r := Destroy(m.phys, m.spaces[s]);
            && r.Done?
            && Inv(m.(phys := r.value, spaces := m.spaces - {s}))
            && Views(m.(phys := r.value, spaces := m.spaces - {s})) == Views(m) - {s}
  {
    hide Inv;
    InvParts(m, s);
    LiveIsCounted(m, Dir(s));
    var p := Destroy(m.phys, m.spaces[s]).value;
    var n := m.(phys := p, spaces := m.spaces - {s});
    DirGone(m, n, s);
    hide SameBut, Stripped;
    assert Sized(n) && forall t :: t in n.spaces ==> TablesCover(n.spaces[t]) by { OthersCovered(m, n); }
    hide TablesCover, Sized;
    DropInv(m, n, Dir(s));
  }

  lemma OthersCovered(m: Machine, n: Machine)
    requires Inv(m) && n.phys.Ok() && n.kernel == m.kernel && forall t :: t in n.spaces ==> t in m.spaces && n.spaces[t] == m.spaces[t]
    ensures Sized(n) && forall t :: t in n.spaces ==> TablesCover(n.spaces[t])
  {
  }

  /** A stripped space holds its directory and nothing else. */
  lemma DirGone(m: Machine, n: Machine, s: nat)
    requires Sized(m) && s in m.spaces && Stripped(m.spaces[s]) && n.spaces == m.spaces - {s} && n.kernel == m.kernel
    ensures SameBut(m, n, Dir(s)) && !Live(n, Dir(s)) && Live(m, Dir(s)) && forall q :: q in Writable(n) ==> q in Writable(m)
  {
  }

  lemma NotKernel(m: Machine, f: nat)
    requires forall r :: Live(m, r) ==> Frame(m, r) != f
    ensures f !in m.kernel
  {
    var r := Ker(f);
    assert Live(m, r) <==> f in m.kernel;
  }

  lemma KeepKernelMap(m: Machine, p: Phys, f: nat)
    requires Inv(m) && AllocFrame(m.phys) == Done((p, f))
    ensures var n := m.(phys := p.(mem := p.mem[f := ZeroPage()]), kernel := m.kernel + {f});
            Inv(n) && Views(n) == Views(m)
  {
    var q := p.(mem := p.mem[f := ZeroPage()]);
    var n := m.(phys := q, kernel := m.kernel + {f});
    UnusedFrame(m, f);
    NotKernel(m, f);
    assert Sized(n) && (forall t :: t in n.spaces ==> TablesCover(n.spaces[t])) && Sized(m);
    hide Inv, TablesCover, AllocFrame;
    FreshInv(m, n, Ker(f), f);
    forall s | s in m.spaces ensures View(q.mem, m.spaces[s]) == View(m.phys.mem, m.spaces[s]) {
      SameView(m, q.mem, s, f);
    }
  }

  lemma KeepKernelUnmap(m: Machine, f: nat)
    requires Inv(m) && f in m.kernel
    ensures var r := ReleaseFrame(m.phys, f);
            && r.Done?
            && Inv(m.(phys := r.value, kernel := m.kernel - {f}))
            && Views(m.(phys := r.value, kernel := m.kernel - {f})) == Views(m)
  {
    LiveIsCounted(m, Ker(f));
    var p := ReleaseFrame(m.phys, f).value;
    DropInv(m, m.(phys := p, kernel := m.kernel - {f}), Ker(f));
  }

  // ---------------------------------------------------------------- runs

  /** Spaces in `zombies` have exited and wait to be reaped. */
  datatype System = System(m: Machine, zombies: set<nat>)

  datatype Op =
    | Load(s: nat, v: nat, off: nat)
    | Store(s: nat, v: nat, off: nat, b: Byte)
    | Map(s: nat, v: nat)                 // map_page, as for a fresh user stack
    | Fork(s: nat, n: nat)
    | Unmap(s: nat, lo: nat, hi: nat)     // release_pages on a user range
    | Exit(s: nat)                        // release_user_space_pages
    | Reap(s: nat)                        // destroy_process
    | KernelMap
    | KernelUnmap(f: nat)

  /** What the kernel can ask for when `live` are the spaces that exist. */
  predicate Enabled(live: set<nat>, zombies: set<nat>, op: Op) {
    match op
    case Load(s, v, off) => s in live - zombies && UserPage(v) && off < PAGE_SIZE
    case Store(s, v, off, b) => s in live - zombies && UserPage(v) && off < PAGE_SIZE
    case Map(s, v) => s in live - zombies && UserPage(v)
    case Fork(s, n) => s in live - zombies && n !in live
    case Unmap(s, lo, hi) => s in live - zombies && USER_LO <= lo <= hi <= USER_HI
    case Exit(s) => s in live - zombies
    case Reap(s) => s in live * zombies
    case KernelMap => true
    case KernelUnmap(f) => true
  }

  ghost predicate SystemInv(y: System) {
    && Inv(y.m)
    && forall s :: s in y.zombies && s in y.m.spaces ==> Stripped(y.m.spaces[s])
  }

  /** One operation of the code of page.c; a load also yields the byte it reads. */
  ghost function Step(y: System, op: Op): (r: Outcome<(System, seq<Byte>)>)
    requires SystemInv(y)
  {
    var m := y.m;
    if !Enabled(m.spaces.Keys, y.zombies, op) then Done((y, []))
    else match op
      case Load(s, v, off) =>
        var (p, sp, f) :- Touch(m.phys, m.spaces[s], v, false);
        Done((y.(m := Put(m, s, p, sp)), [p.mem[f][off]]))
      case Store(s, v, off, b) =>
        var (p, sp) :- PageSpec.Store(m.phys, m.spaces[s], v, off, b);
        Done((y.(m := Put(m, s, p, sp)), []))
      case Map(s, v) =>
        var (p, sp) :- MapPage(m.phys, m.spaces[s], v);
        Done((y.(m := Put(m, s, p, sp)), []))
      case Fork(s, n) =>
        var t :- Clone(m.phys, m.spaces[s]);
        Done((System(Pair(m, s, n, t), y.zombies - {n}), []))
      case Unmap(s, lo, hi) =>
        var (p, sp) :- ReleaseRange(m.phys, m.spaces[s], lo, hi);
        Done((y.(m := Put(m, s, p, sp)), []))
      case Exit(s) =>
        var (p, sp) :- ReleaseUserSpace(m.phys, m.spaces[s]);
        Done((System(Put(m, s, p, sp), y.zombies + {s}), []))
      case Reap(s) =>
        var p :- Destroy(m.phys, m.spaces[s]);
        Done((y.(m := m.(phys := p, spaces := m.spaces - {s})), []))
      case KernelMap =>
        var (p, f) :- AllocFrame(m.phys);
        Done((y.(m := m.(phys := p.(mem := p.mem[f := ZeroPage()]), kernel := m.kernel + {f})), []))
      case KernelUnmap(f) =>
        if f !in m.kernel then Done((y, []))
        else
          var p :- ReleaseFrame(m.phys, f);
          Done((y.(m := m.(phys := p, kernel := m.kernel - {f})), []))
  }

  /** The eager machine: private pages, no frames, no counts. */
  datatype Eager = Eager(pages: map<nat, map<nat, Page>>, zombies: set<nat>)

  ghost function EagerStep(a: Eager, op: Op): (r: (Eager, seq<Byte>)) {
    if !Enabled(a.pages.Keys, a.zombies, op) then (a, [])
    else match op
      case Load(s, v, off) =>
        var w := WithPage(a.pages[s], v);
        (a.(pages := a.pages[s := w]), [w[v][off]])
      case Store(s, v, off, b) =>
        var w := WithPage(a.pages[s], v);
        (a.(pages := a.pages[s := w[v := w[v][off := b]]]), [])
      case Map(s, v) => (a.(pages := a.pages[s := WithPage(a.pages[s], v)]), [])
      case Fork(s, n) => (Eager(a.pages[n := a.pages[s]], a.zombies - {n}), [])
      case Unmap(s, lo, hi) => (a.(pages := a.pages[s := Without(a.pages[s], lo, hi)]), [])
      case Exit(s) => (Eager(a.pages[s := map[]], a.zombies + {s}), [])
      case Reap(s) => (a.(pages := a.pages - {s}), [])
      case KernelMap => (a, [])
      case KernelUnmap(f) => (a, [])
  }

  ghost function Eagerly(y: System): Eager
    requires Sized(y.m)
  {
    Eager(Views(y.m), y.zombies)
  }

  /** What one step has to satisfy. */
  ghost predicate Simulates(y: System, op: Op)
    requires SystemInv(y)
  {
    var r := Step(y, op);
    && !r.AssertFailed?
    && (r.Done? ==> SystemInv(r.value.0) && EagerStep(Eagerly(y), op) == (Eagerly(r.value.0), r.value.1))
  }

  lemma ViewsAt(m: Machine, s: nat)
    requires Sized(m) && s in m.spaces
    ensures s in Views(m) && Views(m)[s] == View(m.phys.mem, m.spaces[s]) && Views(m).Keys == m.spaces.Keys
  {
  }

  lemma OthersStripped(y: System, s: nat, p: Phys, sp: Space)
    requires SystemInv(y) && s in y.m.spaces && s !in y.zombies && Inv(Put(y.m, s, p, sp))
    ensures SystemInv(y.(m := Put(y.m, s, p, sp)))
  {
  }

  lemma SimulateLoad(y: System, s: nat, v: nat, off: nat)
    requires SystemInv(y) && Enabled(y.m.spaces.Keys, y.zombies, Load(s, v, off))
    ensures Simulates(y, Load(s, v, off))
  {
    KeepTouch(y.m, s, v, false);
    ViewsAt(y.m, s);
    var r := Touch(y.m.phys, y.m.spaces[s], v, false);
    if r.Done? {
      var (p, sp, f) := r.value;
      OthersStripped(y, s, p, sp);
      ViewsAt(Put(y.m, s, p, sp), s);
      assert View(p.mem, sp)[v] == p.mem[f];
    }
  }

  lemma KeepStore(m: Machine, s: nat, v: nat, off: nat, b: Byte)
    requires Inv(m) && s in m.spaces && UserPage(v) && off < PAGE_SIZE
    requires PageSpec.Store(m.phys, m.spaces[s], v, off, b).Done?
    ensures var (p, sp) := PageSpec.Store(m.phys, m.spaces[s], v, off, b).value;
            var w := WithPage(View(m.phys.mem, m.spaces[s]), v);
            Inv(Put(m, s, p, sp)) && Views(Put(m, s, p, sp)) == Views(m)[s := w[v := w[v][off := b]]]
  {
    KeepTouch(m, s, v, true);
    var (p, sp, f) := Touch(m.phys, m.spaces[s], v, true).value;
    var n := Put(m, s, p, sp);
    ViewsAt(n, s);
    var w := View(p.mem, sp);
    assert w[v] == p.mem[f];
    KeepStoreHit(n, s, v, p.mem[f][off := b]);
    PutPut(m, s, p, sp, p.(mem := p.mem[f := p.mem[f][off := b]]), sp);
    Overwrite(Views(m), s, w, w[v := w[v][off := b]]);
  }

  lemma Overwrite<K, V>(a: map<K, V>, k: K, v: V, w: V)
    ensures a[k := v][k := w] == a[k := w]
  {
  }

  lemma SimulateStore(y: System, s: nat, v: nat, off: nat, b: Byte)
    requires SystemInv(y) && Enabled(y.m.spaces.Keys, y.zombies, Op.Store(s, v, off, b))
    ensures Simulates(y, Op.Store(s, v, off, b))
  {
    KeepTouch(y.m, s, v, true);
    ViewsAt(y.m, s);
    var r := PageSpec.Store(y.m.phys, y.m.spaces[s], v, off, b);
    if r.Done? {
      KeepStore(y.m, s, v, off, b);
      OthersStripped(y, s, r.value.0, r.value.1);
    }
  }

  lemma SimulateMap(y: System, s: nat, v: nat)
    requires SystemInv(y) && Enabled(y.m.spaces.Keys, y.zombies, Map(s, v))
    ensures Simulates(y, Map(s, v))
  {
    ViewsAt(y.m, s);
    var r := MapPage(y.m.phys, y.m.spaces[s], v);
    if r.Done? {
      KeepMapPage(y.m, s, v);
      OthersStripped(y, s, r.value.0, r.value.1);
    }
  }

  lemma SimulateFork(y: System, s: nat, n: nat)
    requires SystemInv(y) && Enabled(y.m.spaces.Keys, y.zombies, Fork(s, n))
    ensures Simulates(y, Fork(s, n))
  {
    ViewsAt(y.m, s);
    var r := Clone(y.m.phys, y.m.spaces[s]);
    if r.Done? {
      KeepClone(y.m, s, n);
    }
  }

  lemma SimulateUnmap(y: System, s: nat, lo: nat, hi: nat)
    requires SystemInv(y) && Enabled(y.m.spaces.Keys, y.zombies, Unmap(s, lo, hi))
    ensures Simulates(y, Unmap(s, lo, hi))
  {
    ViewsAt(y.m, s);
    KeepReleaseRange(y.m, s, lo, hi);
    ReleasedViews(y.m, s, lo, hi);
    var (p, sp) := ReleaseRange(y.m.phys, y.m.spaces[s], lo, hi).value;
    OthersStripped(y, s, p, sp);
  }

  lemma SimulateExit(y: System, s: nat)
    requires SystemInv(y) && Enabled(y.m.spaces.Keys, y.zombies, Exit(s))
    ensures Simulates(y, Exit(s))
  {
    ViewsAt(y.m, s);
    KeepReleaseUserSpace(y.m, s);
  }

  lemma SimulateReap(y: System, s: nat)
    requires SystemInv(y) && Enabled(y.m.spaces.Keys, y.zombies, Reap(s))
    ensures Simulates(y, Reap(s))
  {
    ViewsAt(y.m, s);
    KeepDestroy(y.m, s);
  }

  // ---------------------------------------------------------------- memory

  /** Frames that op takes. */
  ghost function Needs(y: System, op: Op): nat
    requires SystemInv(y)
  {
    var m := y.m;
    if !Enabled(m.spaces.Keys, y.zombies, op) then 0
    else match op
      case Load(s, v, _) => TouchNeeds(m.phys, m.spaces[s], v, false)
      case Store(s, v, _, _) => TouchNeeds(m.phys, m.spaces[s], v, true)
      case Map(s, v) => MapNeeds(m.spaces[s], v)
      case Fork(s, _) => ForkNeeds(m.spaces[s])
      case KernelMap => 1
      case _ => 0
  }

  predicate Gives(op: Op) { op.Unmap? || op.Exit? || op.Reap? || op.KernelUnmap? }

  /** An operation stops for want of memory exactly when fewer frames are free than it takes. */
  lemma StepTakes(y: System, op: Op)
    requires SystemInv(y)
    ensures var r := Step(y, op);
      && (r.NoMemory? <==> Free(y.m.phys) < Needs(y, op))
      && (r.Done? && !Gives(op) ==> Free(r.value.0.m.phys) == Free(y.m.phys) - Needs(y, op))
  {
    var m := y.m;
    if Enabled(m.spaces.Keys, y.zombies, op) {
      hide Free, Touch, MapPage, Clone, AllocFrame, Inv, TouchNeeds, MapNeeds, ForkNeeds, ReleaseRange, ReleaseUserSpace, Destroy;
      InvSized(m);
      match op
      case Load(s, v, _) => TouchTakes(m, s, v, false);
      case Store(s, v, off, b) =>
        TouchTakes(m, s, v, true);
        StoreTakes(m.phys, m.spaces[s], v, off, b);
      case Map(s, v) => MapTakes(m.phys, m.spaces[s], v);
      case Fork(s, n) => ForkTakes(m, s, n);
      case Unmap(s, lo, hi) => KeepReleaseRange(m, s, lo, hi);
      case Exit(s) => KeepReleaseUserSpace(m, s);
      case Reap(s) => KeepDestroy(m, s);
      case KernelMap =>
        AllocTakes(m.phys);
        SameCountsSameFree(m.phys);
      case KernelUnmap(f) => 
    }
  }

  lemma InvSized(m: Machine)
    requires Inv(m)
    ensures Sized(m)
  {
  }

  lemma StoreTakes(p: Phys, sp: Space, v: nat, off: nat, b: Byte)
    requires p.Ok() && sp.Ok() && UserPage(v) && off < PAGE_SIZE
    ensures var r, t := PageSpec.Store(p, sp, v, off, b), Touch(p, sp, v, true);
      r.NoMemory? == t.NoMemory? && r.Done? == t.Done? && (r.Done? ==> Free(r.value.0) == Free(t.value.0))
  {
  }

  /** Contents do not matter. */
  lemma SameCountsSameFree(p: Phys)
    ensures forall mem: seq<Page> :: Free(p.(mem := mem)) == Free(p)
  {
  }

  /** No Assert of page.c fails, the invariant is kept, memory is what stops it, and user code cannot tell the machines apart. */
  lemma StepRefines(y: System, op: Op)
    requires SystemInv(y)
    ensures Simulates(y, op) && (Step(y, op).NoMemory? <==> Free(y.m.phys) < Needs(y, op))
  {
    StepTakes(y, op);
    hide Needs, Free;
    StepSimulates(y, op);
  }

  lemma StepSimulates(y: System, op: Op)
    requires SystemInv(y)
    ensures Simulates(y, op)
  {
    assert Views(y.m).Keys == y.m.spaces.Keys;
    if Enabled(y.m.spaces.Keys, y.zombies, op) {
      match op
      case Load(s, v, off) => SimulateLoad(y, s, v, off);
      case Store(s, v, off, b) => SimulateStore(y, s, v, off, b);
      case Map(s, v) => SimulateMap(y, s, v);
      case Fork(s, n) => SimulateFork(y, s, n);
      case Unmap(s, lo, hi) => SimulateUnmap(y, s, lo, hi);
      case Exit(s) => SimulateExit(y, s);
      case Reap(s) => SimulateReap(y, s);
      case KernelMap =>
        if AllocFrame(y.m.phys).Done? {
          KeepKernelMap(y.m, AllocFrame(y.m.phys).value.0, AllocFrame(y.m.phys).value.1);
        }
      case KernelUnmap(f) =>
        if f in y.m.kernel {
          KeepKernelUnmap(y.m, f);
        }
    }
  }

  ghost function Run(y: System, ops: seq<Op>): (r: Outcome<(System, seq<Byte>)>)
    requires SystemInv(y)
    ensures r.Done? ==> SystemInv(r.value.0)
    decreases |ops|
  {
    if ops == [] then Done((y, []))
    else
      StepRefines(y, ops[0]);
      var (y1, out) :- Step(y, ops[0]);
      var (y2, rest) :- Run(y1, ops[1..]);
      Done((y2, out + rest))
  }

  ghost function EagerRun(a: Eager, ops: seq<Op>): (r: (Eager, seq<Byte>))
    decreases |ops|
  {
    if ops == [] then (a, [])
    else
      var (a1, out) := EagerStep(a, ops[0]);
      var (a2, rest) := EagerRun(a1, ops[1..]);
      (a2, out + rest)
  }

  /** The first i operations go through, and the next one finds fewer free frames than it takes. */
  ghost predicate StopsAt(y: System, ops: seq<Op>, i: nat)
    requires SystemInv(y) && i < |ops|
  {
    var r := Run(y, ops[..i]);
    r.Done? && Free(r.value.0.m.phys) < Needs(r.value.0, ops[i])
  }

  lemma StopsLater(y: System, ops: seq<Op>, i: nat)
    requires SystemInv(y) && i < |ops|
    ensures StopsAt(y, ops, 0) <==> Free(y.m.phys) < Needs(y, ops[0])
    ensures i > 0 && !Step(y, ops[0]).Done? ==> !StopsAt(y, ops, i)
    ensures i > 0 && Step(y, ops[0]).Done? ==>
      var z := Step(y, ops[0]).value.0; SystemInv(z) && (StopsAt(y, ops, i) <==> StopsAt(z, ops[1..], i - 1))
  {
    hide Step, Needs, Free, EagerStep, SystemInv;
    StepRefines(y, ops[0]);
    if i > 0 {
      assert ops[..i] != [] && ops[..i][0] == ops[0] && ops[..i][1..] == ops[1..][..i - 1];
    }
  }

  /** A run ends early exactly when some operation in it finds fewer free frames than it takes. */
  lemma {:induction false} StopsForMemoryOnly(y: System, ops: seq<Op>)
    requires SystemInv(y)
    ensures Run(y, ops).NoMemory? <==> exists i :: 0 <= i < |ops| && StopsAt(y, ops, i)
    decreases |ops|
  {
    hide Step, Needs, Free, EagerStep, SystemInv, StopsAt;
    if ops != [] {
      StepRefines(y, ops[0]);
      StopsLater(y, ops, 0);
      if Step(y, ops[0]).Done? {
        var z := Step(y, ops[0]).value.0;
        StopsForMemoryOnly(z, ops[1..]);
        if Run(z, ops[1..]).NoMemory? {
          var i :| 0 <= i < |ops[1..]| && StopsAt(z, ops[1..], i);
          StopsLater(y, ops, i + 1);
        } else {
          forall i | 0 < i < |ops| ensures !StopsAt(y, ops, i) {
            StopsLater(y, ops, i);
          }
        }
      }
    }
  }

  /**
    Copy on write is transparent: every run reads the bytes and ends with the pages of the eager machine, and ends
    early only when memory is used up.
   */
  lemma {:induction false} CowIsTransparent(y: System, ops: seq<Op>)
    requires SystemInv(y)
    ensures !Run(y, ops).AssertFailed?
    ensures Run(y, ops).NoMemory? <==> exists i :: 0 <= i < |ops| && StopsAt(y, ops, i)
    ensures Run(y, ops).Done? ==>
              && SystemInv(Run(y, ops).value.0)
              && EagerRun(Eagerly(y), ops) == (Eagerly(Run(y, ops).value.0), Run(y, ops).value.1)
    decreases |ops|
  {
    StopsForMemoryOnly(y, ops);
    hide StopsAt;
    if ops != [] {
      StepRefines(y, ops[0]);
      if Step(y, ops[0]).Done? {
        CowIsTransparent(Step(y, ops[0]).value.0, ops[1..]);
      }
    }
  }

  // ---------------------------------------------------------------- fresh pages

  /** A page that user code has never touched reads as zero, and a new page holds nothing but zeroes. */
  lemma FreshPagesAreZero(y: System, s: nat, v: nat, off: nat)
    requires SystemInv(y) && s in y.m.spaces && s !in y.zombies && UserPage(v) && off < PAGE_SIZE && v !in Views(y.m)[s]
    ensures var r := Step(y, Load(s, v, off)); r.Done? ==> r.value.1 == [0] && IsZero(Views(r.value.0.m), s, v)
    ensures var r := Step(y, Map(s, v)); r.Done? ==> IsZero(Views(r.value.0.m), s, v)
  {
    StepRefines(y, Load(s, v, off));
    StepRefines(y, Map(s, v));
    hide Step;
  }

  ghost predicate IsZero(a: map<nat, map<nat, Page>>, s: nat, v: nat) {
    s in a && v in a[s] && forall i :: 0 <= i < PAGE_SIZE ==> a[s][v][i] == 0
  }
}
