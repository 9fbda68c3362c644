/**
  Consequences for every reachable state: what a count means, conservation over
  fork-exit-reap, when allocation fails, and where kernel-mode stores break copy on write.
 */
module PageFacts {
  import opened PageSpec
  import opened RefCount
  import opened PageMachine
  import opened PageMemory
  import opened PageSteps
  import opened PageFork
  import opened PageRun

  // ---------------------------------------------------------------- reachable states

  /** Space b with directory frame d, no user mappings, every other used frame the kernel's. */
  ghost predicate BootedAt(m: Machine, b: nat, d: nat) {
    && Sized(m) && d < FRAMES && d !in m.kernel && m.spaces == map[b := EmptySpace(d)]
    && forall f :: 0 <= f < FRAMES ==> m.phys.counts[f] == if f == d || f in m.kernel then 1 else 0
  }

  /** What init_page leaves. */
  ghost predicate Booted(y: System) {
    y.zombies == {} && exists b: nat, d: nat :: BootedAt(y.m, b, d)
  }

  lemma BootUsers(m: Machine, b: nat, d: nat, f: nat)
    requires BootedAt(m, b, d)
    ensures Users(Graph(m), f) == if f == d then {Dir(b)} else if f in m.kernel then {Ker(f)} else {}
  {
    forall r ensures r in Users(Graph(m), f) <==> r in (if f == d then {Dir(b)} else if f in m.kernel then {Ker(f)} else {}) {
      match r
      case Dir(s) =>
      case Tab(s, i) =>
      case Pag(s, v) =>
      case Ker(k) =>
    }
  }

  lemma BootCounted(m: Machine, b: nat, d: nat)
    requires BootedAt(m, b, d)
    ensures Counted(m.phys.counts, Graph(m))
  {
    hide Graph;
    forall f: nat | f < FRAMES ensures m.phys.counts[f] == |Users(Graph(m), f)| {
      BootUsers(m, b, d, f);
    }
  }

  lemma BootPrivate(m: Machine, b: nat, d: nat)
    requires BootedAt(m, b, d)
    ensures SharedAtSamePage(Graph(m)) && Private(Graph(m), Writable(m))
  {
    forall r | Live(m, r) ensures r == Dir(b) || (r.Ker? && r.f in m.kernel) {
      match r
      case Dir(_) =>
      case Tab(_, _) =>
      case Pag(_, _) =>
      case Ker(_) =>
    }
  }

  lemma BootCovered(m: Machine, b: nat, d: nat)
    requires BootedAt(m, b, d)
    ensures Sized(m) && forall s :: s in m.spaces ==> TablesCover(m.spaces[s])
  {
  }

  lemma BootInv(y: System)
    requires Booted(y)
    ensures SystemInv(y)
  {
    var b: nat, d: nat :| BootedAt(y.m, b, d);
    hide BootedAt, Inv, Graph, Counted, SharedAtSamePage, Private, Writable, TablesCover, Sized;
    BootCounted(y.m, b, d);
    BootPrivate(y.m, b, d);
    BootCovered(y.m, b, d);
    InvFrom(y.m);
  }

  /** Every state of every run from boot satisfies the invariant, and no Assert of page.c fails on the way. */
  lemma ReachableInv(y: System, ops: seq<Op>)
    requires Booted(y)
    ensures SystemInv(y) && !Run(y, ops).AssertFailed?
    ensures Run(y, ops).Done? ==> SystemInv(Run(y, ops).value.0)
  {
    BootInv(y);
    CowIsTransparent(y, ops);
  }

  /** A count is zero exactly for the frames nothing refers to. */
  lemma CountedIffReachable(m: Machine, f: nat)
    requires Inv(m) && f < FRAMES
    ensures m.phys.counts[f] > 0 <==> exists r :: Live(m, r) && Frame(m, r) == f
  {
    if r :| Live(m, r) && Frame(m, r) == f {
      LiveIsCounted(m, r);
    } else {
      forall r ensures r !in Users(Graph(m), f) {
      }
      assert Users(Graph(m), f) == {};
    }
  }

  /** A writable user page is counted once; a page counted more than once is read-only everywhere. */
  lemma WritableIsCountedOnce(m: Machine, s: nat, v: nat)
    requires Inv(m) && s in m.spaces && UserPage(v) && m.spaces[s].pt[v].present && m.spaces[s].pt[v].rw
    ensures m.phys.counts[m.spaces[s].pt[v].frame] == 1
  {
    var r := Pag(s, v);
    var f := m.spaces[s].pt[v].frame;
    assert r in Graph(m) && r in Writable(m);
    assert Users(Graph(m), f) == {r};
  }

  // ---------------------------------------------------------------- conservation

  /** Equal reference graphs have equal counts. */
  lemma SameGraphSameCounts(m: Machine, n: Machine)
    requires Inv(m) && Inv(n) && Graph(m) == Graph(n)
    ensures m.phys.counts == n.phys.counts
  {
    forall f: nat | f < FRAMES ensures m.phys.counts[f] == n.phys.counts[f] {
      assert m.phys.counts[f] == |Users(Graph(m), f)|;
      assert n.phys.counts[f] == |Users(Graph(n), f)|;
    }
  }

  /** The parent of a fork keeps its mappings; only write bits change. */
  lemma CloneKeepsParent(m: Machine, s: nat, n: nat)
    requires Inv(m) && s in m.spaces && n !in m.spaces && Clone(m.phys, m.spaces[s]).Done?
    ensures var cur := Clone(m.phys, m.spaces[s]).value.1;
            cur == m.spaces[s].(pt := cur.pt) && forall v :: UserPage(v) ==> cur.pt[v] == Low(m.spaces[s].pt[v])
  {
    var cur := m.spaces[s];
    var (p, f) := AllocFrame(m.phys).value;
    NewDir(m, n, p, f);
    assert Put(m, n, p, EmptySpace(f)) == Pair(m, s, n, (p, cur, EmptySpace(f))) by {
      assert m.spaces[n := EmptySpace(f)] == m.spaces[s := cur][n := EmptySpace(f)];
    }
    KeepCloneTables(m, s, n, p, cur, EmptySpace(f), USER_PDE_HI);
  }

  lemma LoweredGraph(m: Machine, s: nat, p: Phys, cur: Space)
    requires s in m.spaces && cur == m.spaces[s].(pt := cur.pt) && |cur.pt| == |m.spaces[s].pt| == PAGES
    requires forall v :: UserPage(v) ==> cur.pt[v] == Low(m.spaces[s].pt[v])
    ensures Graph(Put(m, s, p, cur)) == Graph(m)
  {
    var n := Put(m, s, p, cur);
    forall r ensures Live(n, r) == Live(m, r) && (Live(m, r) ==> Frame(n, r) == Frame(m, r)) {
      match r
      case Dir(_) =>
      case Tab(_, _) =>
      case Pag(_, v) =>
      case Ker(_) =>
    }
  }

  /** Exit and reap of a space n take it out of the machine and disturb nothing else. */
  lemma ExitReap(m: Machine, n: nat)
    requires Inv(m) && n in m.spaces
    ensures var r := ReleaseUserSpace(m.phys, m.spaces[n]);
            && r.Done?
            && var d := Destroy(r.value.0, r.value.1);
               d.Done? && Inv(m.(phys := d.value, spaces := m.spaces - {n}))
  {
    hide Inv, Views, Stripped, ReleaseUserSpace, Destroy, Put;
    InvParts(m, n);
    KeepReleaseUserSpace(m, n);
    var (p, w) := ReleaseUserSpace(m.phys, m.spaces[n]).value;
    ReapAfter(m, n, p, w);
  }

  lemma ReapAfter(m: Machine, n: nat, p: Phys, w: Space)
    requires n in m.spaces && p.Ok() && Inv(Put(m, n, p, w)) && Stripped(w)
    ensures var d := Destroy(p, w); d.Done? && Inv(m.(phys := d.value, spaces := m.spaces - {n}))
  {
    hide Inv, Views, Stripped, Destroy;
    KeepDestroy(Put(m, n, p, w), n);
    assert m.spaces[n := w] - {n} == m.spaces - {n};
  }

  lemma CloneExitReap(m: Machine, s: nat, n: nat, t: (Phys, Space, Space))
    requires s in m.spaces && n !in m.spaces && t.0.Ok() && t.2.Ok()
    requires Inv(Pair(m, s, n, t))
    ensures var r := ReleaseUserSpace(t.0, t.2);
            && r.Done?
            && var d := Destroy(r.value.0, r.value.1);
               d.Done? && Inv(Put(m, s, d.value, t.1))
  {
    ExitReap(Pair(m, s, n, t), n);
    var r := ReleaseUserSpace(t.0, t.2).value;
    PairMinus(m, s, n, t, Destroy(r.0, r.1).value);
  }

  lemma PairMinus(m: Machine, s: nat, n: nat, t: (Phys, Space, Space), q: Phys)
    requires s in m.spaces && n !in m.spaces
    ensures Pair(m, s, n, t).(phys := q, spaces := Pair(m, s, n, t).spaces - {n}) == Put(m, s, q, t.1)
  {
    assert m.spaces[s := t.1][n := t.2] - {n} == m.spaces[s := t.1];
  }

  /** Fork, then exit and reap of the child: every reference count is what it was. */
  lemma ForkExitReapRestores(m: Machine, s: nat, n: nat)
    requires Inv(m) && s in m.spaces && n !in m.spaces && Clone(m.phys, m.spaces[s]).Done?
    ensures var t := Clone(m.phys, m.spaces[s]).value;
            var r := ReleaseUserSpace(t.0, t.2);
            && r.Done?
            && var d := Destroy(r.value.0, r.value.1);
               d.Done? && d.value.counts == m.phys.counts
  {
    var t := Clone(m.phys, m.spaces[s]).value;
    KeepClone(m, s, n);
    CloneExitReap(m, s, n, t);
    CloneKeepsParent(m, s, n);
    var r := ReleaseUserSpace(t.0, t.2).value;
    RestoredCounts(m, s, Destroy(r.0, r.1).value, t.1);
  }

  lemma RestoredCounts(m: Machine, s: nat, q: Phys, cur: Space)
    requires Inv(m) && s in m.spaces && Inv(Put(m, s, q, cur)) && cur == m.spaces[s].(pt := cur.pt)
    requires forall v :: UserPage(v) ==> v < |cur.pt| && cur.pt[v] == Low(m.spaces[s].pt[v])
    ensures q.counts == m.phys.counts
  {
    assert Put(m, s, q, cur).spaces[s] == cur;
    LoweredGraph(m, s, q, cur);
    SameGraphSameCounts(m, Put(m, s, q, cur));
  }

  // ---------------------------------------------------------------- kernel-mode stores

  /** CR0.WP stays clear, so a kernel-mode store goes through whatever the rw bit says. */
  ghost function KernelStore(m: Machine, s: nat, v: nat, off: nat, b: Byte): (n: Machine)
    requires Sized(m) && s in m.spaces && UserPage(v) && m.spaces[s].pt[v].present && off < PAGE_SIZE
    ensures Sized(n)
  {
    var f := m.spaces[s].pt[v].frame;
    m.(phys := m.phys.(mem := m.phys.mem[f := m.phys.mem[f][off := b]]))
  }

  lemma OtherUser(m: Machine, s: nat, v: nat) returns (t: nat)
    requires Inv(m) && s in m.spaces && UserPage(v) && m.spaces[s].pt[v].present
    requires m.phys.counts[m.spaces[s].pt[v].frame] > 1
    ensures t != s && t in m.spaces && m.spaces[t].pt[v].present && m.spaces[t].pt[v].frame == m.spaces[s].pt[v].frame
  {
    var g := Graph(m);
    var f := m.spaces[s].pt[v].frame;
    assert Pag(s, v) in g;
    var q := Another(Users(g, f), Pag(s, v));
    assert q in g && g[q] == f && q.Pag? && q.v == v;
    t := q.s;
  }

  /** A kernel-mode store is seen by its own space alone exactly when the frame is not shared or the byte is unchanged. */
  lemma KernelStoreIsPrivateIff(m: Machine, s: nat, v: nat, off: nat, b: Byte)
    requires Inv(m) && s in m.spaces && UserPage(v) && m.spaces[s].pt[v].present && off < PAGE_SIZE
    ensures (forall t :: t in m.spaces && t != s ==> Views(KernelStore(m, s, v, off, b))[t] == Views(m)[t])
            <==> m.phys.counts[m.spaces[s].pt[v].frame] == 1 || m.phys.mem[m.spaces[s].pt[v].frame][off] == b
  {
    var f := m.spaces[s].pt[v].frame;
    var n := KernelStore(m, s, v, off, b);
    LiveIsCounted(m, Pag(s, v));
    if m.phys.mem[f][off] == b {
      assert m.phys.mem[f][off := b] == m.phys.mem[f];
      assert n == m;
    } else if m.phys.counts[f] == 1 {
      OneIsSole(m.phys.counts, Graph(m), Pag(s, v));
      forall t | t in m.spaces && t != s ensures Views(n)[t] == Views(m)[t] {
        forall u | Live(m, Pag(t, u)) ensures Frame(m, Pag(t, u)) != f {
          assert Pag(t, u) in Graph(m);
        }
        SameView(m, n.phys.mem, t, f);
      }
    } else {
      var t := OtherUser(m, s, v);
      assert v in View(m.phys.mem, m.spaces[t]);
      assert Views(m)[t][v] == m.phys.mem[f];
      assert Views(n)[t][v] == m.phys.mem[f][off := b];
      assert m.phys.mem[f][off := b][off] == b;
    }
  }

  /** After a fork parent and child map a page to one frame. */
  lemma ForkShares(m: Machine, s: nat, n: nat, v: nat)
    requires Inv(m) && s in m.spaces && n !in m.spaces && Clone(m.phys, m.spaces[s]).Done? && UserPage(v) && m.spaces[s].pt[v].present
    ensures var t := Clone(m.phys, m.spaces[s]).value;
            var f := m.spaces[s].pt[v].frame;
            && f < FRAMES && t.0.mem == m.phys.mem && t.1.Ok() && t.2.Ok()
            && t.1.pt[v].present && t.1.pt[v].frame == f && t.2.pt[v].present && t.2.pt[v].frame == f
  {
    var cur := m.spaces[s];
    var (p, f) := AllocFrame(m.phys).value;
    InvParts(m, s);
    NewDir(m, n, p, f);
    assert Put(m, n, p, EmptySpace(f)) == Pair(m, s, n, (p, cur, EmptySpace(f))) by {
      assert m.spaces[n := EmptySpace(f)] == m.spaces[s := cur][n := EmptySpace(f)];
    }
    KeepCloneTables(m, s, n, p, cur, EmptySpace(f), USER_PDE_HI);
    ClonedPages(p, cur, EmptySpace(f), Clone(m.phys, cur).value);
    assert Maps(cur.pt, v);
  }

  /** The failing input: after a fork, a kernel-mode store by the parent of a byte that differs shows up in the child. */
  lemma KernelStoreLeaks(m: Machine, s: nat, n: nat, v: nat, off: nat, b: Byte)
    requires Inv(m) && s in m.spaces && n !in m.spaces && Clone(m.phys, m.spaces[s]).Done?
    requires UserPage(v) && m.spaces[s].pt[v].present && off < PAGE_SIZE && View(m.phys.mem, m.spaces[s])[v][off] != b
    ensures var x := Pair(m, s, n, Clone(m.phys, m.spaces[s]).value);
            && Inv(x) && x.spaces[s].pt[v].present
            && v in Views(x)[n] && Views(x)[n][v][off] != b && Views(KernelStore(x, s, v, off, b))[n][v][off] == b
  {
    var t := Clone(m.phys, m.spaces[s]).value;
    var x := Pair(m, s, n, t);
    ForkShares(m, s, n, v);
    KeepClone(m, s, n);
    assert x.spaces[s] == t.1 && x.spaces[n] == t.2 && x.phys == t.0;
    assert Sized(x) by { SizedParts(x); }
    hide Inv;
    assert Views(x)[n] == View(x.phys.mem, t.2);
  }
}
