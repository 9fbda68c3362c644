/**
  Fork by page-table cloning (clone_crt_page_dir, src/mem/page.c:460-571): every partial
  clone satisfies the invariant, and the finished child sees exactly the parent's pages.
 */
module PageFork {
  import opened PageSpec
  import opened RefCount
  import opened PageMachine
  import opened PageMemory
  import opened PageSteps

  // ---------------------------------------------------------------- new directory, new table

  lemma NewDir(m: Machine, n: nat, p: Phys, f: nat)
    requires Inv(m) && n !in m.spaces && p.Ok() && f < FRAMES
    requires m.phys.counts[f] == 0 && p.counts == m.phys.counts[f := 1] && p.mem == m.phys.mem
    ensures Inv(Put(m, n, p, EmptySpace(f))) && Views(Put(m, n, p, EmptySpace(f))) == Views(m)[n := map[]]
  {
    hide Inv;
    var sp := EmptySpace(f);
    var x := Put(m, n, p, sp);
    PutCovered(m, n, p, sp);
    assert Sized(m) by { SizedParts(m); }
    EmptyMaps(f);
    DirAdds(m, x, n, f);
    assert View(p.mem, sp) == map[];
    hide View, SameBut, Sized, TablesCover, Live, Frame, Writable;
    FreshInv(m, x, Dir(n), f);
  }

  lemma SizedParts(m: Machine)
    requires Inv(m)
    ensures Sized(m)
  {
  }

  lemma EmptyMaps(f: nat)
    requires f < FRAMES
    ensures forall i: nat :: !Maps(EmptySpace(f).pd, i) && !Maps(EmptySpace(f).pt, i)
  {
  }

  /** The reference a new directory adds. */
  lemma DirAdds(m: Machine, x: Machine, n: nat, f: nat)
    requires f < FRAMES && n !in m.spaces && x.spaces == m.spaces[n := EmptySpace(f)] && x.kernel == m.kernel
    ensures SameBut(m, x, Dir(n)) && !Live(m, Dir(n)) && Live(x, Dir(n)) && Frame(x, Dir(n)) == f
    ensures forall q :: q in Writable(x) ==> q in Writable(m)
  {
    EmptyMaps(f);
  }

  lemma NewTable(m: Machine, n: nat, i: nat, p: Phys, f: nat)
    requires Inv(m) && n in m.spaces && UserTable(i) && !m.spaces[n].pd[i].present && p.Ok() && f < FRAMES
    requires m.phys.counts[f] == 0 && p.counts == m.phys.counts[f := 1] && p.mem == m.phys.mem
    ensures Inv(Put(m, n, p, m.spaces[n].(pd := m.spaces[n].pd[i := Pte(true, true, true, f)])))
  {
    var sp := m.spaces[n].(pd := m.spaces[n].pd[i := Pte(true, true, true, f)]);
    PutCovered(m, n, p, sp);
    FreshInv(m, Put(m, n, p, sp), Tab(n, i), f);
  }

  // ---------------------------------------------------------------- one shared entry

  /** Dropping a write bit. */
  lemma RevokeInv(m: Machine, s: nat, v: nat)
    requires Inv(m) && s in m.spaces && UserPage(v) && m.spaces[s].pt[v].present
    ensures var e := m.spaces[s].pt[v].(rw := false);
            var n := Put(m, s, m.phys, m.spaces[s].(pt := m.spaces[s].pt[v := e]));
            Inv(n) && Pag(s, v) !in Writable(n)
  {
    var e := m.spaces[s].pt[v].(rw := false);
    var sp := m.spaces[s].(pt := m.spaces[s].pt[v := e]);
    var n := Put(m, s, m.phys, sp);
    EntryCovered(m.spaces[s], v, e);
    PutCovered(m, s, m.phys, sp);
    EntryChange(m, s, v, m.phys, e);
    GraphAdds(m, n, Pag(s, v));
    assert Graph(n) == Graph(m);
  }

  /** A second reference to a frame that page v of space s maps read-only. */
  lemma AddShared(g: map<Ref, nat>, w: iset<Ref>, x: iset<Ref>, s: nat, n: nat, v: nat)
    requires SharedAtSamePage(g) && Private(g, w)
    requires Pag(s, v) in g && Pag(n, v) !in g && Pag(s, v) !in w && Pag(n, v) !in x
    requires forall q :: q in x ==> q in w
    ensures var h := g[Pag(n, v) := g[Pag(s, v)]]; SharedAtSamePage(h) && Private(h, x)
  {
    var a := Pag(s, v);
    var b := Pag(n, v);
    var h := g[b := g[a]];
    forall r, q | r in h && q in h && r != q && h[r] == h[q] ensures r.Pag? && q.Pag? && r.v == q.v {
      if r == b && q != a {
        assert g[q] == g[a];
      } else if q == b && r != a {
        assert g[r] == g[a];
      }
    }
    assert forall r :: r in w && r in g ==> g[r] != g[a];
    assert forall r :: r in x && r in h ==> r in w && r in g && h[r] == g[r];
  }

  lemma CountFits(m: Machine, f: nat)
    requires Inv(m) && f < FRAMES
    ensures m.phys.counts[f] + 1 < COUNT_MOD
  {
    if m.phys.counts[f] > 1 {
      CountBounded(m, f);
    }
  }

  /** inc_cow_ref never wraps its uint16_t. */
  lemma IncIsExact(m: Machine, f: nat)
    requires Inv(m) && f < FRAMES
    ensures IncRef(m.phys, f).counts == m.phys.counts[f := m.phys.counts[f] + 1]
  {
    CountFits(m, f);
    SmallMod(m.phys.counts[f] + 1);
  }

  lemma SmallMod(c: nat)
    requires c < COUNT_MOD
    ensures c % COUNT_MOD == c
  {
  }

  lemma ShareInv(m: Machine, s: nat, n: nat, v: nat)
    requires Inv(m) && s in m.spaces && n in m.spaces && s != n && UserPage(v)
    requires m.spaces[s].pt[v].present && !m.spaces[s].pt[v].rw
    requires m.spaces[n].pd[v / TABLE].present && !m.spaces[n].pt[v].present
    ensures var e := m.spaces[s].pt[v];
            Inv(Put(m, n, IncRef(m.phys, e.frame), m.spaces[n].(pt := m.spaces[n].pt[v := e])))
  {
    var e := m.spaces[s].pt[v];
    var p := IncRef(m.phys, e.frame);
    var sp := m.spaces[n].(pt := m.spaces[n].pt[v := e]);
    var x := Put(m, n, p, sp);
    hide Inv, Graph, SharedAtSamePage, Counted, Private;
    InvParts(m, s);
    InvParts(m, n);
    GraphParts(m);
    EntryCovered(m.spaces[n], v, e);
    PutCovered(m, n, p, sp);
    EntryChange(m, n, v, p, e);
    IncIsExact(m, e.frame);
    SharedRefs(m, x, s, n, v);
    hide Writable, TablesCover, Sized, Live, Frame, SameBut;
    GraphAdds(m, x, Pag(n, v));
    AddRef(m.phys.counts, Graph(m), Pag(n, v), e.frame);
    AddShared(Graph(m), Writable(m), Writable(x), s, n, v);
    InvFrom(x);
  }

  /** The references involved when page v of s is shared with n. */
  lemma SharedRefs(m: Machine, x: Machine, s: nat, n: nat, v: nat)
    requires s in m.spaces && n in m.spaces && s != n && UserPage(v) && m.spaces[s].Ok() && m.spaces[n].Ok()
    requires m.spaces[s].pt[v].present && !m.spaces[s].pt[v].rw && !m.spaces[n].pt[v].present
    requires x.spaces == m.spaces[n := m.spaces[n].(pt := m.spaces[n].pt[v := m.spaces[s].pt[v]])]
    ensures Pag(s, v) in Graph(m) && Graph(m)[Pag(s, v)] == m.spaces[s].pt[v].frame && Pag(n, v) !in Graph(m)
    ensures Pag(s, v) !in Writable(m) && Pag(n, v) !in Writable(x) && Live(x, Pag(n, v)) && Frame(x, Pag(n, v)) == m.spaces[s].pt[v].frame
    ensures m.spaces[s].pt[v].frame < FRAMES
  {
  }

  /** Copying an absent entry changes nothing. */
  lemma CopyAbsent(m: Machine, n: nat, v: nat, e: Pte)
    requires Inv(m) && n in m.spaces && UserPage(v) && !m.spaces[n].pt[v].present && !e.present
    ensures Inv(Put(m, n, m.phys, m.spaces[n].(pt := m.spaces[n].pt[v := e])))
  {
    var sp := m.spaces[n].(pt := m.spaces[n].pt[v := e]);
    var x := Put(m, n, m.phys, sp);
    EntryCovered(m.spaces[n], v, e);
    PutCovered(m, n, m.phys, sp);
    EntryChange(m, n, v, m.phys, e);
    GraphDrops(m, x, Pag(n, v));
    assert Graph(x) == Graph(m);
    assert Pag(n, v) !in Writable(x);
  }

  /** The machine with the parent s and the child n replaced. */
  ghost function Pair(m: Machine, s: nat, n: nat, t: (Phys, Space, Space)): Machine {
    Put(Put(m, s, t.0, t.1), n, t.0, t.2)
  }

  lemma PairSwap(m: Machine, s: nat, n: nat, p: Phys, cur: Space, w: Space, p1: Phys, cur1: Space, w1: Space)
    requires s != n
    ensures Put(Put(Pair(m, s, n, (p, cur, w)), s, p, cur1), n, p1, w1) == Pair(m, s, n, (p1, cur1, w1))
    ensures Put(Pair(m, s, n, (p, cur, w)), n, p, w1) == Pair(m, s, n, (p, cur, w1))
  {
    assert m.spaces[s := cur][n := w][s := cur1][n := w1] == m.spaces[s := cur1][n := w1];
    assert m.spaces[s := cur][n := w][n := w1] == m.spaces[s := cur][n := w1];
  }

  lemma KeepShareEntry(m: Machine, s: nat, n: nat, v: nat, p: Phys, cur: Space, w: Space)
    requires s != n && UserPage(v) && p.Ok() && cur.Ok() && w.Ok() && Inv(Pair(m, s, n, (p, cur, w)))
    requires w.pd[v / TABLE].present && !w.pt[v].present
    ensures Inv(Pair(m, s, n, ShareEntry(p, cur, w, v)))
  {
    var a := Pair(m, s, n, (p, cur, w));
    var e := cur.pt[v];
    if !e.present {
      CopyAbsent(a, n, v, e);
      PairSwap(m, s, n, p, cur, w, p, cur, w.(pt := w.pt[v := e]));
    } else {
      var ro := e.(rw := false);
      RevokeInv(a, s, v);
      var cur1 := cur.(pt := cur.pt[v := ro]);
      ShareInv(Put(a, s, p, cur1), s, n, v);
      PairSwap(m, s, n, p, cur, w, IncRef(p, e.frame), cur1, w.(pt := w.pt[v := ro]));
    }
  }

  // ---------------------------------------------------------------- one table

  /** Entry j of table i has not been copied yet when its turn comes. */
  lemma NextEntry(p: Phys, cur: Space, w: Space, i: nat, j: nat)
    requires p.Ok() && cur.Ok() && w.Ok() && UserTable(i) && j < TABLE && w.pd[i].present
    requires forall v :: i * TABLE <= v < i * TABLE + TABLE ==> !w.pt[v].present
    ensures var x := ShareTable(p, cur, w, i, j).2;
            var v := i * TABLE + j;
            UserPage(v) && x.pd[v / TABLE].present && !x.pt[v].present
  {
    SharedShape(p, cur, w, i, j);
    assert (i * TABLE + j) / TABLE == i;
  }

  lemma {:induction false} KeepShareTable(m: Machine, s: nat, n: nat, p: Phys, cur: Space, w: Space, i: nat, j: nat)
    requires s != n && UserTable(i) && j <= TABLE && p.Ok() && cur.Ok() && w.Ok()
    requires Inv(Pair(m, s, n, (p, cur, w))) && w.pd[i].present
    requires forall v :: i * TABLE <= v < i * TABLE + TABLE ==> !w.pt[v].present
    ensures Inv(Pair(m, s, n, ShareTable(p, cur, w, i, j)))
  {
    hide Inv, Pair;
    if j > 0 {
      KeepShareTable(m, s, n, p, cur, w, i, j - 1);
      NextEntry(p, cur, w, i, j - 1);
      var (q, c, x) := ShareTable(p, cur, w, i, j - 1);
      KeepShareEntry(m, s, n, i * TABLE + j - 1, q, c, x);
    }
  }

  lemma CloneTableStart(m: Machine, s: nat, n: nat, p: Phys, cur: Space, w: Space, i: nat, p1: Phys, f: nat)
    requires s != n && UserTable(i) && p.Ok() && cur.Ok() && w.Ok()
    requires Inv(Pair(m, s, n, (p, cur, w))) && !w.pd[i].present
    requires AllocFrame(p) == Done((p1, f))
    ensures Inv(Pair(m, s, n, (p1, cur, w.(pd := w.pd[i := Pte(true, true, true, f)]))))
    ensures forall v :: i * TABLE <= v < i * TABLE + TABLE ==> !w.pt[v].present
  {
    var a := Pair(m, s, n, (p, cur, w));
    NewTable(a, n, i, p1, f);
    assert TablesCover(a.spaces[n]) && a.spaces[n] == w;
    PairSwap(m, s, n, p, cur, w, p1, cur, w.(pd := w.pd[i := Pte(true, true, true, f)]));
    assert Put(a, s, p, cur) == a by {
      assert a.spaces[s := cur] == a.spaces;
    }
    forall v | i * TABLE <= v < i * TABLE + TABLE ensures !w.pt[v].present {
      assert UserPage(v) && v / TABLE == i;
    }
  }

  lemma KeepCloneTable(m: Machine, s: nat, n: nat, p: Phys, cur: Space, w: Space, i: nat)
    requires s != n && UserTable(i) && p.Ok() && cur.Ok() && w.Ok()
    requires Inv(Pair(m, s, n, (p, cur, w))) && !w.pd[i].present
    requires CloneTable(p, cur, w, i).Done?
    ensures Inv(Pair(m, s, n, CloneTable(p, cur, w, i).value))
  {
    if cur.pd[i].present {
      var (p1, f) := AllocFrame(p).value;
      CloneTableStart(m, s, n, p, cur, w, i, p1, f);
      KeepShareTable(m, s, n, p1, cur, w.(pd := w.pd[i := Pte(true, true, true, f)]), i, TABLE);
    }
  }

  // ---------------------------------------------------------------- all tables

  /** What PDEs 1..k-1 of the outer loop leave behind, for a parent with covered tables. */
  ghost predicate ClonedTo(p: Phys, cur: Space, w: Space, k: nat, t: (Phys, Space, Space))
    requires cur.Ok() && w.Ok() && t.1.Ok() && t.2.Ok()
  {
    && t.0.mem == p.mem
    && t.1 == cur.(pt := t.1.pt) && t.2.pdFrame == w.pdFrame
    && (forall v :: UserPage(v) ==> t.1.pt[v] == if v < k * TABLE then Low(cur.pt[v]) else cur.pt[v])
    && (forall v :: UserPage(v) && v < k * TABLE ==> Maps(t.2.pt, v) == Maps(cur.pt, v))
    && (forall v :: UserPage(v) && v < k * TABLE && Maps(cur.pt, v) ==> t.2.pt[v] == Low(cur.pt[v]))
    && (forall v :: UserPage(v) && k * TABLE <= v ==> !t.2.pt[v].present)
    && (forall i :: UserTable(i) && k <= i ==> !t.2.pd[i].present)
  }

  lemma CloneOneMore(p: Phys, cur: Space, w: Space, k: nat, t: (Phys, Space, Space))
    requires p.Ok() && cur.Ok() && TablesCover(cur) && w.Ok() && UserTable(k)
    requires t.0.Ok() && t.1.Ok() && t.2.Ok() && ClonedTo(p, cur, w, k, t)
    requires CloneTable(t.0, t.1, t.2, k).Done?
    ensures ClonedTo(p, cur, w, k + 1, CloneTable(t.0, t.1, t.2, k).value)
  {
    if t.1.pd[k].present {
      var (p1, f) := AllocFrame(t.0).value;
      SharedShape(p1, t.1, t.2.(pd := t.2.pd[k := Pte(true, true, true, f)]), k, TABLE);
    } else {
      assert forall v :: UserPage(v) && k * TABLE <= v < (k + 1) * TABLE ==> v / TABLE == k && !cur.pt[v].present;
    }
  }

  lemma {:induction false} KeepCloneTables(m: Machine, s: nat, n: nat, p: Phys, cur: Space, w: Space, k: nat)
    requires s != n && USER_PDE_LO <= k <= USER_PDE_HI && p.Ok() && cur.Ok() && TablesCover(cur) && w.Ok()
    requires Inv(Pair(m, s, n, (p, cur, w)))
    requires (forall i :: UserTable(i) ==> !w.pd[i].present) && (forall v :: UserPage(v) ==> !w.pt[v].present)
    requires CloneTables(p, cur, w, k).Done?
    ensures var t := CloneTables(p, cur, w, k).value;
            Inv(Pair(m, s, n, t)) && ClonedTo(p, cur, w, k, t)
  {
    if k > USER_PDE_LO {
      KeepCloneTables(m, s, n, p, cur, w, k - 1);
      var t := CloneTables(p, cur, w, k - 1).value;
      KeepCloneTable(m, s, n, t.0, t.1, t.2, k - 1);
      CloneOneMore(p, cur, w, k - 1, t);
    }
  }

  /** Fork keeps the invariant, and the child sees a copy of every page of the parent. */
  lemma KeepClone(m: Machine, s: nat, n: nat)
    requires Inv(m) && s in m.spaces && n !in m.spaces && Clone(m.phys, m.spaces[s]).Done?
    ensures var x := Pair(m, s, n, Clone(m.phys, m.spaces[s]).value);
            Inv(x) && Views(x) == Views(m)[n := View(m.phys.mem, m.spaces[s])]
  {
    var cur := m.spaces[s];
    var (p, f) := AllocFrame(m.phys).value;
    NewDir(m, n, p, f);
    var w := EmptySpace(f);
    assert Put(m, n, p, w) == Pair(m, s, n, (p, cur, w)) by {
      assert m.spaces[n := w] == m.spaces[s := cur][n := w];
    }
    KeepCloneTables(m, s, n, p, cur, w, USER_PDE_HI);
    var t := CloneTables(p, cur, w, USER_PDE_HI).value;
    CloneViews(m, s, n, p, w, t);
  }

  lemma CloneViews(m: Machine, s: nat, n: nat, p: Phys, w: Space, t: (Phys, Space, Space))
    requires Sized(m) && s in m.spaces && n !in m.spaces && p.mem == m.phys.mem && w.Ok()
    requires t.0.Ok() && t.1.Ok() && t.2.Ok() && ClonedTo(p, m.spaces[s], w, USER_PDE_HI, t)
    ensures Sized(Pair(m, s, n, t))
    ensures Views(Pair(m, s, n, t)) == Views(m)[n := View(m.phys.mem, m.spaces[s])]
  {
    PutSized(m, s, t.0, t.1);
    PutSized(Put(m, s, t.0, t.1), n, t.0, t.2);
    var cur := m.spaces[s];
    ClonedPages(p, cur, w, t);
    SameUserPages(m.phys.mem, cur, t.1);
    SameUserPages(m.phys.mem, cur, t.2);
    hide View, ClonedTo, Maps;
  }

  /** Parent and child map the parent's pages. */
  lemma ClonedPages(p: Phys, cur: Space, w: Space, t: (Phys, Space, Space))
    requires cur.Ok() && w.Ok() && t.0.Ok() && t.1.Ok() && t.2.Ok() && ClonedTo(p, cur, w, USER_PDE_HI, t)
    ensures t.0.mem == p.mem
    ensures forall v :: UserPage(v) ==> Maps(t.1.pt, v) == Maps(cur.pt, v) && Maps(t.2.pt, v) == Maps(cur.pt, v)
    ensures forall v :: UserPage(v) && Maps(cur.pt, v) ==> t.1.pt[v].frame == cur.pt[v].frame && t.2.pt[v].frame == cur.pt[v].frame
  {
  }

  // ---------------------------------------------------------------- how much memory a fork takes

  /** The present tables of PDEs 1..k-1. */
  ghost function Tables(sp: Space, k: nat): set<nat>
    requires sp.Ok() && k <= TABLE
  {
    set i: nat | USER_PDE_LO <= i < k && sp.pd[i].present
  }

  /** Sharing an entry only raises counts that are not zero. */
  lemma ShareTakesNothing(m: Machine, s: nat, n: nat, v: nat, p: Phys, cur: Space, w: Space)
    requires s != n && UserPage(v) && p.Ok() && cur.Ok() && w.Ok() && Inv(Pair(m, s, n, (p, cur, w)))
    ensures Free(ShareEntry(p, cur, w, v).0) == Free(p)
  {
    var a := Pair(m, s, n, (p, cur, w));
    if cur.pt[v].present {
      assert a.spaces[s] == cur && a.phys == p;
      LiveIsCounted(a, Pag(s, v));
      IncIsExact(a, cur.pt[v].frame);
      KeepUsed(p.counts, cur.pt[v].frame, p.counts[cur.pt[v].frame] + 1);
    }
  }

  lemma {:induction false} ShareTableTakesNothing(m: Machine, s: nat, n: nat, p: Phys, cur: Space, w: Space, i: nat, j: nat)
    requires s != n && UserTable(i) && j <= TABLE && p.Ok() && cur.Ok() && w.Ok()
    requires Inv(Pair(m, s, n, (p, cur, w))) && w.pd[i].present
    requires forall v :: i * TABLE <= v < i * TABLE + TABLE ==> !w.pt[v].present
    ensures Free(ShareTable(p, cur, w, i, j).0) == Free(p)
  {
    hide Inv, Pair, Free;
    if j > 0 {
      ShareTableTakesNothing(m, s, n, p, cur, w, i, j - 1);
      KeepShareTable(m, s, n, p, cur, w, i, j - 1);
      NextEntry(p, cur, w, i, j - 1);
      var (q, c, x) := ShareTable(p, cur, w, i, j - 1);
      ShareTakesNothing(m, s, n, i * TABLE + j - 1, q, c, x);
    }
  }

  lemma CloneTableTakes(m: Machine, s: nat, n: nat, p: Phys, cur: Space, w: Space, i: nat)
    requires s != n && UserTable(i) && p.Ok() && cur.Ok() && w.Ok()
    requires Inv(Pair(m, s, n, (p, cur, w))) && !w.pd[i].present
    ensures var r, d := CloneTable(p, cur, w, i), if cur.pd[i].present then 1 else 0;
      (r.NoMemory? <==> Free(p) < d) && (r.Done? ==> Free(r.value.0) == Free(p) - d)
  {
    hide Inv, Pair, Free, AllocFrame, ShareTable;
    AllocTakes(p);
    if cur.pd[i].present && AllocFrame(p).Done? {
      var (p1, f) := AllocFrame(p).value;
      CloneTableStart(m, s, n, p, cur, w, i, p1, f);
      ShareTableTakesNothing(m, s, n, p1, cur, w.(pd := w.pd[i := Pte(true, true, true, f)]), i, TABLE);
    }
  }

  lemma OneTable(sp: Space, k: nat)
    requires sp.Ok() && UserTable(k)
    ensures |Tables(sp, k + 1)| == |Tables(sp, k)| + if sp.pd[k].present then 1 else 0
  {
    assert Tables(sp, k + 1) == Tables(sp, k) + if sp.pd[k].present then {k} else {};
  }

  lemma {:induction false} TablesTake(m: Machine, s: nat, n: nat, p: Phys, cur: Space, w: Space, k: nat)
    requires s != n && USER_PDE_LO <= k <= USER_PDE_HI && p.Ok() && cur.Ok() && TablesCover(cur) && w.Ok()
    requires Inv(Pair(m, s, n, (p, cur, w)))
    requires (forall i :: UserTable(i) ==> !w.pd[i].present) && (forall v :: UserPage(v) ==> !w.pt[v].present)
    ensures var r := CloneTables(p, cur, w, k);
      (r.NoMemory? <==> Free(p) < |Tables(cur, k)|) && (r.Done? ==> Free(r.value.0) == Free(p) - |Tables(cur, k)|)
  {
    hide Inv, Pair, Free, CloneTable;
    if k > USER_PDE_LO {
      TablesTake(m, s, n, p, cur, w, k - 1);
      OneTable(cur, k - 1);
      hide Tables;
      var r := CloneTables(p, cur, w, k - 1);
      if r.Done? {
        KeepCloneTables(m, s, n, p, cur, w, k - 1);
        CloneTableTakes(m, s, n, r.value.0, r.value.1, r.value.2, k - 1);
      }
    } else {
      assert Tables(cur, k) == {};
    }
  }

  /** A fork needs a directory and a table for each present user table of the parent. */
  ghost function ForkNeeds(sp: Space): nat
    requires sp.Ok()
  {
    1 + |Tables(sp, USER_PDE_HI)|
  }

  lemma ForkTakes(m: Machine, s: nat, n: nat)
    requires Inv(m) && s in m.spaces && n !in m.spaces
    ensures var r := Clone(m.phys, m.spaces[s]);
      (r.NoMemory? <==> Free(m.phys) < ForkNeeds(m.spaces[s])) && (r.Done? ==> Free(r.value.0) == Free(m.phys) - ForkNeeds(m.spaces[s]))
  {
    var cur := m.spaces[s];
    AllocTakes(m.phys);
    assert TablesCover(cur);
    if AllocFrame(m.phys).Done? {
      var (p, f) := AllocFrame(m.phys).value;
      NewDir(m, n, p, f);
      var w := EmptySpace(f);
      assert Put(m, n, p, w) == Pair(m, s, n, (p, cur, w)) by {
        assert m.spaces[n := w] == m.spaces[s := cur][n := w];
      }
      hide Inv, CloneTables, Tables, AllocFrame;
      TablesTake(m, s, n, p, cur, w, USER_PDE_HI);
    }
  }
}
